/**
 ACLDescribeUserCommandRules and ACLDescribeUser. The rules they emit, replayed by
 ACLSetUser on a fresh user, give the described user back in everything but the
 ALLCOMMANDS flag, which comes back set exactly when every bit of the bitmap is set and no
 category is crowded with commands past the end of the bitmap.
 */
module AclDescribe {
  import opened Prelude
  import opened CommandBits
  import opened AclRules
  import opened AclUser

  // ----- counting a category

  predicate BitOf(bits: seq<bool>, id: nat) {
    id < |bits| && bits[id]
  }

  /** Commands of the category among the first n whose bit is value. */
  function CountBits(table: seq<Cmd>, bits: seq<bool>, c: nat, value: bool, n: nat): nat
    requires n <= |table|
  {
    if n == 0 then 0
    else
      CountBits(table, bits, c, value, n - 1)
      + if c in table[n - 1].categories && BitOf(bits, table[n - 1].id) == value then 1 else 0
  }

  lemma {:induction false} CountsAreSmall(table: seq<Cmd>, bits: seq<bool>, c: nat, value: bool, n: nat)
    requires n <= |table|
    ensures CountBits(table, bits, c, value, n) <= n
  {
    if n > 0 {
      CountsAreSmall(table, bits, c, value, n - 1);
    }
  }

  /** Commands of the category among the first n with an id past the bitmap, or inside it. */
  function CountIds(table: seq<Cmd>, c: nat, past: bool, n: nat): nat
    requires n <= |table|
  {
    if n == 0 then 0
    else
      CountIds(table, c, past, n - 1)
      + if c in table[n - 1].categories && (table[n - 1].id >= USER_COMMAND_BITS_COUNT) == past then 1 else 0
  }

  /** For a user with every bit set, exactly the commands past the bitmap count as denied. */
  lemma {:induction false} CountsWhenFull(table: seq<Cmd>, bits: seq<bool>, c: nat, value: bool, n: nat)
    requires |bits| == USER_COMMAND_BITS_COUNT && AllSet(bits) && n <= |table|
    ensures CountBits(table, bits, c, value, n) == CountIds(table, c, !value, n)
  {
    if n > 0 {
      CountsWhenFull(table, bits, c, value, n - 1);
    }
  }

  lemma LastId(table: seq<Cmd>, id: nat)
    requires table != []
    ensures IsCommandId(table, id) <==> IsCommandId(table[..|table| - 1], id) || id == table[|table| - 1].id
  {
    var init := table[..|table| - 1];
    if IsCommandId(init, id) {
      var i :| 0 <= i < |init| && init[i].id == id;
      assert table[i].id == id;
    }
    if IsCommandId(table, id) && id != table[|table| - 1].id {
      var i :| 0 <= i < |table| && table[i].id == id;
      assert init[i].id == id;
    }
  }

  /** ACLCountCategoryBitsForUser */
  method CountCategoryBits(env: Env, u: User, c: nat) returns (on: nat, off: nat)
    requires u.Valid()
    ensures on == CountBits(env.table, u.View().bits, c, true, |env.table|)
    ensures off == CountBits(env.table, u.View().bits, c, false, |env.table|)
  {
    hide Bits;
    on, off := 0, 0;
    for i := 0 to |env.table|
      invariant on == CountBits(env.table, u.View().bits, c, true, i)
      invariant off == CountBits(env.table, u.View().bits, c, false, i)
    {
      if c in env.table[i].categories {
        var b := u.GetCommandBit(env.table[i].id);
        if b {
          on := on + 1;
        } else {
          off := off + 1;
        }
      }
    }
  }

  // ----- the best category

  /** How far applying the category would overshoot, and how much it would get right. */
  function Wrong(table: seq<Cmd>, bits: seq<bool>, additive: bool, c: nat): nat {
    CountBits(table, bits, c, !additive, |table|)
  }

  function Right(table: seq<Cmd>, bits: seq<bool>, additive: bool, c: nat): nat {
    CountBits(table, bits, c, additive, |table|)
  }

  predicate Worthwhile(table: seq<Cmd>, bits: seq<bool>, additive: bool, c: nat) {
    Right(table, bits, additive, c) > Wrong(table, bits, additive, c)
  }

  /** a is preferred to b: fewer wrong, then more right, then earlier. */
  predicate Preferred(table: seq<Cmd>, bits: seq<bool>, additive: bool, a: nat, b: nat) {
    var da, db := Wrong(table, bits, additive, a), Wrong(table, bits, additive, b);
    var sa, sb := Right(table, bits, additive, a), Right(table, bits, additive, b);
    da < db || (da == db && (sa > sb || (sa == sb && a <= b)))
  }

  ghost predicate IsBest(table: seq<Cmd>, bits: seq<bool>, additive: bool, applied: seq<bool>, n: nat, best: int) {
    if best < 0 then
      forall c :: 0 <= c < n && c < |applied| && !applied[c] ==> !Worthwhile(table, bits, additive, c)
    else
      && best < n && best < |applied| && !applied[best] && Worthwhile(table, bits, additive, best)
      && forall c :: 0 <= c < n && c < |applied| && !applied[c] && Worthwhile(table, bits, additive, c) ==>
           Preferred(table, bits, additive, best, c)
  }

  /** The inner loop: the category not yet applied that fits best, or -1. */
  method FindBest(env: Env, temp: User, applied: seq<bool>, additive: bool) returns (best: int)
    requires ValidEnv(env) && temp.Valid() && |applied| == CATEGORY_COUNT
    ensures -1 <= best < CATEGORY_COUNT
    ensures IsBest(env.table, temp.View().bits, additive, applied, CATEGORY_COUNT, best)
  {
    hide Bits, CountBits;
    ghost var bits := temp.View().bits;
    best := -1;
    var mindiff, maxsame := INT_MAX, 0;
    for j := 0 to CATEGORY_COUNT
      invariant -1 <= best < j
      invariant IsBest(env.table, bits, additive, applied, j, best)
      invariant if best < 0 then mindiff == INT_MAX
                else
                  mindiff == Wrong(env.table, bits, additive, best)
                  && maxsame == Right(env.table, bits, additive, best)
    {
      if applied[j] { continue; }
      var on, off := CountCategoryBits(env, temp, j);
      CountsAreSmall(env.table, bits, j, false, |env.table|);
      CountsAreSmall(env.table, bits, j, true, |env.table|);
      var diff := if additive then off else on;
      var same := if additive then on else off;
      if same > diff && (diff < mindiff || (diff == mindiff && same > maxsame)) {
        best := j;
        mindiff := diff;
        maxsame := same;
      }
    }
  }

  // ----- what replaying the rules so far has made of the user

  /** v differs from u only in what the command rules touch. */
  ghost predicate OnlyCommandsDiffer(u: UserState, v: UserState) {
    v == u.(bits := v.bits, subs := v.subs, allCommands := v.allCommands)
  }

  /**
   rules, replayed on s, give r. Its bits that belong to no command have the value spare,
   and its ALLCOMMANDS flag is honest.
   */
  ghost predicate Replayed(env: Env, s: UserState, rules: seq<Rule>, r: UserState, spare: bool) {
    && Replay(env, s, rules) == Accepted(r)
    && OnlyCommandsDiffer(s, r)
    && SpareBits(env.table, r.bits, spare)
    && (r.allCommands ==> AllSet(r.bits))
  }

  /** A change from u to v that only command rules make. */
  ghost predicate CommandChange(table: seq<Cmd>, u: UserState, v: UserState) {
    && OnlyCommandsDiffer(u, v)
    && |v.bits| == |u.bits|
    && (forall i :: 0 <= i < |v.bits| && !IsCommandId(table, i) ==> v.bits[i] == u.bits[i])
    && ((u.allCommands ==> AllSet(u.bits)) ==> (v.allCommands ==> AllSet(v.bits)))
  }

  lemma ChangesChain(table: seq<Cmd>, u: UserState, v: UserState, w: UserState)
    requires CommandChange(table, u, v) && CommandChange(table, v, w)
    ensures CommandChange(table, u, w)
  {
    hide IsCommandId, AllSet;
  }

  lemma SetCommandChange(table: seq<Cmd>, u: UserState, id: nat, value: bool)
    requires IsCommandId(table, id)
    ensures CommandChange(table, u, SetCommand(u, id, value))
  {
    hide IsCommandId, AllSet;
    if id < |u.bits| {
      SettingKeepsAll(u.bits, id);
    }
  }

  lemma {:induction false} CategoryChange(table: seq<Cmd>, u: UserState, c: nat, value: bool, n: nat)
    requires n <= |table|
    ensures CommandChange(table, u, SetCategory(table, u, c, value, n))
    ensures u.subs == map[] ==> SetCategory(table, u, c, value, n).subs == map[]
  {
    hide CommandChange, IsCommandId, SetBit;
    if n == 0 {
      NoChange(table, u);
    } else {
      CategoryChange(table, u, c, value, n - 1);
      var v, id := SetCategory(table, u, c, value, n - 1), table[n - 1].id;
      assert IsCommandId(table, id) by { TableId(table, n - 1); }
      SetCommandChange(table, v, id, value);
      ChangesChain(table, u, v, SetCommand(v, id, value));
      SubsShrink(v, id, value);
    }
  }

  lemma NoChange(table: seq<Cmd>, u: UserState)
    ensures CommandChange(table, u, u)
  {
  }

  lemma TableId(table: seq<Cmd>, i: nat)
    requires i < |table|
    ensures IsCommandId(table, table[i].id)
  {
  }

  lemma SubsShrink(u: UserState, id: nat, value: bool)
    ensures SetCommand(u, id, value).subs == u.subs - {id}
  {
  }

  lemma {:induction false} CategoryBits(table: seq<Cmd>, u: UserState, v: UserState, c: nat, value: bool, n: nat)
    requires n <= |table| && u.bits == v.bits
    ensures SetCategory(table, u, c, value, n).bits == SetCategory(table, v, c, value, n).bits
  {
    if n > 0 {
      CategoryBits(table, u, v, c, value, n - 1);
    }
  }

  /** The first rule makes every bit the same and forgets everything else about commands. */
  lemma StartRule(env: Env, s: UserState, value: bool)
    ensures var rule := if value then AllCommands else NoCommands;
            Replayed(env, s, [rule], SetAll(s, value), value)
  {
    var rule := if value then AllCommands else NoCommands;
    assert [rule] == [] + [rule];
    ReplaySnoc(env, s, [], s, rule);
  }

  lemma OneMoreRule(env: Env, s: UserState, rules: seq<Rule>, r: UserState, spare: bool, rule: Rule, v: UserState)
    requires Replayed(env, s, rules, r, spare) && Apply(env, r, rule) == Accepted(v) && CommandChange(env.table, r, v)
    ensures Replayed(env, s, rules + [rule], v, spare)
  {
    hide Apply, Replay, AllSet, IsCommandId;
    ReplaySnoc(env, s, rules, r, rule);
  }

  lemma CategoryRule(env: Env, s: UserState, rules: seq<Rule>, r: UserState, spare: bool, c: nat, allow: bool)
    requires Replayed(env, s, rules, r, spare) && c < CATEGORY_COUNT && r.subs == map[]
    ensures var v := SetCategory(env.table, r, c, allow, |env.table|);
            Replayed(env, s, rules + [Category(c, allow)], v, spare) && v.subs == map[]
  {
    hide SetCategory, Replayed, CommandChange;
    CategoryChange(env.table, r, c, allow, |env.table|);
    OneMoreRule(env, s, rules, r, spare, Category(c, allow), SetCategory(env.table, r, c, allow, |env.table|));
  }

  lemma LookupSelf(env: Env, i: nat)
    requires ValidEnv(env) && i < |env.table|
    ensures Lookup(env.table, env.table[i].name) == i
  {
    var j := Lookup(env.table, env.table[i].name);
    assert j >= 0;
    assert env.table[j].name == env.table[i].name;
  }

  lemma CommandRule(env: Env, s: UserState, rules: seq<Rule>, r: UserState, spare: bool, i: nat, allow: bool)
    requires ValidEnv(env) && Replayed(env, s, rules, r, spare) && i < |env.table|
    ensures var v, name := SetCommand(r, env.table[i].id, allow), env.table[i].name;
            Replayed(env, s, rules + [BitRule(name, allow)], v, spare)
  {
    hide ValidEnv, SetCommand, Replayed, CommandChange, Lookup, IsCommandId;
    var id, name := env.table[i].id, env.table[i].name;
    CommandIds(env, i);
    LookupSelf(env, i);
    SetCommandChange(env.table, r, id, allow);
    OneMoreRule(env, s, rules, r, spare, BitRule(name, allow), SetCommand(r, id, allow));
  }

  lemma AddSubChange(table: seq<Cmd>, u: UserState, id: nat, sub: string)
    ensures CommandChange(table, u, AddSub(u, id, sub))
  {
    hide IsCommandId, AllSet;
  }

  lemma SubRule(env: Env, s: UserState, rules: seq<Rule>, r: UserState, spare: bool, i: nat, sub: string)
    requires ValidEnv(env) && Replayed(env, s, rules, r, spare) && i < |env.table| && sub != ""
    requires !BitOf(r.bits, env.table[i].id)
    ensures Replayed(env, s, rules + [AllowSub(env.table[i].name, sub)], AddSub(r, env.table[i].id, sub), spare)
  {
    hide ValidEnv, AddSub, Replayed, CommandChange, Lookup;
    LookupSelf(env, i);
    AddSubChange(env.table, r, env.table[i].id, sub);
    OneMoreRule(env, s, rules, r, spare, AllowSub(env.table[i].name, sub), AddSub(r, env.table[i].id, sub));
  }

  // ----- the description of the commands

  /** The subcommands of one command. */
  method EmitSubcommands(env: Env, i: nat, list: seq<string>, rules0: seq<Rule>, ghost s: UserState,
                         ghost r: UserState, ghost spare: bool)
    returns (rules: seq<Rule>)
    requires ValidEnv(env) && i < |env.table| && GoodSubs(list)
    requires Replayed(env, s, rules0, r, spare) && !BitOf(r.bits, env.table[i].id) && env.table[i].id !in r.subs
    ensures Replayed(env, s, rules, r.(subs := r.subs[env.table[i].id := list]), spare)
  {
    hide ValidEnv, Replayed, BitOf, Lower;
    ghost var id := env.table[i].id;
    rules := rules0;
    ghost var v := r;
    for j := 0 to |list|
      invariant v == if j == 0 then r else r.(subs := r.subs[id := list[..j]])
      invariant Replayed(env, s, rules, v, spare)
    {
      SubRule(env, s, rules, v, spare, i, list[j]);
      rules := rules + [AllowSub(env.table[i].name, list[j])];
      assert SubsOf(v, id) == list[..j];
      assert !Listed(list[..j], list[j]);
      v := AddSub(v, id, list[j]);
      assert list[..j + 1] == list[..j] + [list[j]];
      assert r.subs[id := list[..j]][id := list[..j + 1]] == r.subs[id := list[..j + 1]];
    }
    assert list[..|list|] == list;
  }

  /** The bitmap with one bit changed, if there is such a bit. */
  function Put(bits: seq<bool>, id: nat, value: bool): seq<bool> {
    if id < |bits| then bits[id := value] else bits
  }

  lemma BitIs(bits: seq<bool>, id: nat)
    ensures BitOf(bits, id) == (id < |bits| && bits[id])
  {
  }

  lemma PutSame(bits: seq<bool>, id: nat, value: bool)
    requires BitOf(bits, id) == value
    ensures Put(bits, id, value) == bits
  {
  }

  lemma SetCommandBits(u: UserState, f: UserState, id: nat, value: bool)
    requires u.bits == f.bits
    ensures SetCommand(u, id, value).bits == Put(u.bits, id, value) == SetBit(f, id, value).bits
    ensures value ==> SetCommand(u, id, value).allCommands == u.allCommands
    ensures id !in u.subs ==> SetCommand(u, id, value).subs == u.subs
  {
  }

  function BitRule(name: string, allow: bool): Rule {
    if allow then Allow(name) else Deny(name)
  }

  /** What repairing the bit of one command does to the rules and to what they replay to. */
  lemma Repaired(env: Env, i: nat, value: bool, f: UserState, rules: seq<Rule>, s: UserState, r: UserState, spare: bool)
    requires ValidEnv(env) && i < |env.table| && Replayed(env, s, rules, r, spare) && r.bits == f.bits
    ensures var id, r1 := env.table[i].id, SetCommand(r, env.table[i].id, value);
            && Replayed(env, s, rules + [BitRule(env.table[i].name, value)], r1, spare)
            && r1.bits == Put(r.bits, id, value) == SetBit(f, id, value).bits
            && (id !in r.subs ==> r1.subs == r.subs)
            && (value ==> r1.allCommands == r.allCommands)
  {
    hide Replayed, ValidEnv, SetBit, SetCommand, Put;
    CommandRule(env, s, rules, r, spare, i, value);
    SetCommandBits(r, f, env.table[i].id, value);
  }

  /** The bit of one command repaired in the fake user and in the rules. */
  method RepairBit(env: Env, i: nat, userBit: bool, fake: User, rules0: seq<Rule>, ghost s: UserState,
                   ghost r0: UserState, ghost spare: bool)
    returns (rules: seq<Rule>, ghost r: UserState)
    requires ValidEnv(env) && i < |env.table| && fake.Valid()
    requires Replayed(env, s, rules0, r0, spare) && r0.bits == fake.View().bits
    modifies fake`allCommands, fake.words
    ensures Replayed(env, s, rules, r, spare) && r.bits == fake.View().bits
    ensures var id := env.table[i].id;
            && r.bits == Put(r0.bits, id, userBit)
            && (id !in r0.subs ==> r.subs == r0.subs)
            && (userBit || BitOf(r0.bits, id) == userBit ==> r.allCommands == r0.allCommands)
  {
    hide Replayed, ValidEnv, Bits, SetBit, SetCommand, Put, BitOf, BitRule;
    var cmd := env.table[i];
    var fakeBit := fake.GetCommandBit(cmd.id);
    rules, r := rules0, r0;
    BitIs(r0.bits, cmd.id);
    if userBit == fakeBit {
      PutSame(r0.bits, cmd.id, userBit);
    } else {
      Repaired(env, i, userBit, fake.View(), rules, s, r, spare);
      rules := rules + [BitRule(cmd.name, userBit)];
      r := SetCommand(r, cmd.id, userBit);
      fake.SetCommandBit(cmd.id, userBit);
    }
  }

  /** One command of the final pass: its bit repaired, its subcommands listed. */
  method FixCommand(env: Env, i: nat, userBit: bool, subs: map<nat, seq<string>>, fake: User,
                    rules0: seq<Rule>, ghost s: UserState, ghost r0: UserState, ghost spare: bool)
    returns (rules: seq<Rule>, ghost r: UserState)
    requires ValidEnv(env) && i < |env.table| && fake.Valid()
    requires env.table[i].id in subs ==> !userBit && GoodSubs(subs[env.table[i].id])
    requires Replayed(env, s, rules0, r0, spare) && r0.bits == fake.View().bits && env.table[i].id !in r0.subs
    modifies fake`allCommands, fake.words
    ensures Replayed(env, s, rules, r, spare) && r.bits == fake.View().bits
    ensures var id := env.table[i].id;
            && r.bits == Put(r0.bits, id, userBit)
            && r.subs == (if id in subs then r0.subs[id := subs[id]] else r0.subs)
            && (userBit || BitOf(r0.bits, id) == userBit ==> r.allCommands == r0.allCommands)
  {
    hide Bits, Replayed, ValidEnv, GoodSubs;
    var cmd := env.table[i];
    rules, r := RepairBit(env, i, userBit, fake, rules0, s, r0, spare);
    if !userBit && cmd.id in subs {
      assert !BitOf(r.bits, cmd.id);
      rules := EmitSubcommands(env, i, subs[cmd.id], rules, s, r, spare);
      r := r.(subs := r.subs[cmd.id := subs[cmd.id]]);
    }
  }

  lemma ListedSubs(table: seq<Cmd>, bits: seq<bool>, subs: map<nat, seq<string>>, id: nat)
    requires GoodSubLists(table, bits, subs)
    ensures id in subs ==> id < |bits| && !bits[id] && GoodSubs(subs[id])
  {
    hide GoodSubs, IsCommandId;
  }

  /** The subcommand lists of the first n commands. */
  ghost function SubsOfFirst(table: seq<Cmd>, subs: map<nat, seq<string>>, n: nat): map<nat, seq<string>>
    requires n <= |table|
  {
    map id | id in subs && IsCommandId(table[..n], id) :: subs[id]
  }

  ghost predicate FixedUpTo(table: seq<Cmd>, u: UserState, r: UserState, n: nat) {
    && n <= |table|
    && (forall i :: 0 <= i < n ==> BitOf(r.bits, table[i].id) == BitOf(u.bits, table[i].id))
    && r.subs == SubsOfFirst(table, u.subs, n)
  }

  lemma NothingFixed(table: seq<Cmd>, u: UserState, r: UserState)
    requires r.subs == map[]
    ensures FixedUpTo(table, u, r, 0)
  {
  }

  /** Fixing one more command leaves the earlier ones fixed: no two share an id. */
  lemma OneMoreFixed(env: Env, u: UserState, r0: UserState, r: UserState, n: nat)
    requires ValidEnv(env) && n < |env.table| && FixedUpTo(env.table, u, r0, n)
    requires |u.bits| == |r0.bits| == USER_COMMAND_BITS_COUNT
    requires r.bits == Put(r0.bits, env.table[n].id, BitOf(u.bits, env.table[n].id))
    requires r.subs
             == if env.table[n].id in u.subs then r0.subs[env.table[n].id := u.subs[env.table[n].id]] else r0.subs
    ensures FixedUpTo(env.table, u, r, n + 1)
  {
    hide IsCommandId;
    var id := env.table[n].id;
    forall i | 0 <= i < n + 1
      ensures BitOf(r.bits, env.table[i].id) == BitOf(u.bits, env.table[i].id)
    {
      assert i < n ==> env.table[i].id != id;
    }
    var want := SubsOfFirst(env.table, u.subs, n + 1);
    forall k: nat
      ensures k in want <==> k in r.subs
    {
      LastId(env.table[..n + 1], k);
      assert env.table[..n + 1][..n] == env.table[..n];
      assert k in want <==> k in u.subs && IsCommandId(env.table[..n + 1], k);
      assert k in r0.subs <==> k in u.subs && IsCommandId(env.table[..n], k);
    }
    assert r.subs == want;
  }

  lemma NotYetFixed(env: Env, u: UserState, r: UserState, n: nat)
    requires ValidEnv(env) && n < |env.table| && FixedUpTo(env.table, u, r, n)
    ensures env.table[n].id !in r.subs
  {
  }

  /** The final pass after n commands: v is the described user, r what the rules replay to,
      from r0 before the pass. */
  ghost predicate PassAt(env: Env, v: UserState, fakeBits: seq<bool>, s: UserState, rules: seq<Rule>,
                         r: UserState, r0: UserState, spare: bool, n: nat) {
    && Replayed(env, s, rules, r, spare) && r.bits == fakeBits
    && FixedUpTo(env.table, v, r, n)
    && (AllSet(v.bits) ==> r.allCommands == r0.allCommands)
  }

  lemma PassNext(env: Env, v: UserState, bits1: seq<bool>, s: UserState, rules: seq<Rule>, rules1: seq<Rule>,
                 r: UserState, r1: UserState, r0: UserState, spare: bool, i: nat)
    requires ValidEnv(env) && i < |env.table| && |v.bits| == USER_COMMAND_BITS_COUNT
    requires PassAt(env, v, r.bits, s, rules, r, r0, spare, i)
    requires Replayed(env, s, rules1, r1, spare) && r1.bits == bits1
    requires var id := env.table[i].id;
             && r1.bits == Put(r.bits, id, BitOf(v.bits, id))
             && r1.subs == (if id in v.subs then r.subs[id := v.subs[id]] else r.subs)
             && (BitOf(v.bits, id) || BitOf(r.bits, id) == BitOf(v.bits, id) ==> r1.allCommands == r.allCommands)
    ensures PassAt(env, v, bits1, s, rules1, r1, r0, spare, i + 1)
  {
    hide ValidEnv, FixedUpTo, OnlyCommandsDiffer, Replay, IsCommandId;
    OneMoreFixed(env, v, r, r1, i);
    if AllSet(v.bits) && !BitOf(v.bits, env.table[i].id) {
      assert env.table[i].id >= |r.bits|;
    }
  }

  lemma PassFacts(env: Env, v: UserState, fakeBits: seq<bool>, s: UserState, rules: seq<Rule>,
                  r: UserState, r0: UserState, spare: bool, n: nat)
    requires PassAt(env, v, fakeBits, s, rules, r, r0, spare, n)
    ensures Replayed(env, s, rules, r, spare) && r.bits == fakeBits && FixedUpTo(env.table, v, r, n)
  {
  }

  /** One round of the final pass; words and subs are what the described user holds. */
  method FixNext(env: Env, i: nat, words: seq<bv64>, subs: map<nat, seq<string>>, fake: User, rules0: seq<Rule>,
                 ghost v: UserState, ghost s: UserState, ghost r0: UserState, ghost first: UserState,
                     ghost spare: bool)
    returns (rules: seq<Rule>, ghost r: UserState)
    requires ValidEnv(env) && i < |env.table| && fake.Valid()
    requires |words| == WORDS && v.bits == Bits(words) && v.subs == subs && GoodSubLists(env.table, v.bits, subs)
    requires PassAt(env, v, fake.View().bits, s, rules0, r0, first, spare, i)
    modifies fake`allCommands, fake.words
    ensures PassAt(env, v, fake.View().bits, s, rules, r, first, spare, i + 1)
  {
    hide Bits, Replayed, ValidEnv, GoodSubLists, GoodSubs, FixedUpTo, PassAt, Get;
    var id := env.table[i].id;
    PassFacts(env, v, fake.View().bits, s, rules0, r0, first, spare, i);
    CommandIds(env, i);
    NotYetFixed(env, v, r0, i);
    ListedSubs(env.table, v.bits, v.subs, id);
    if id < USER_COMMAND_BITS_COUNT {
      BitAt(words, id);
    }
    var userBit := id < USER_COMMAND_BITS_COUNT && Get(words, id);
    assert userBit == BitOf(v.bits, id);
    rules, r := FixCommand(env, i, userBit, subs, fake, rules0, s, r0, spare);
    PassNext(env, v, fake.View().bits, s, rules0, rules, r0, r, first, spare, i);
  }

  /** The final pass over the command table. */
  method FixCommands(env: Env, words: seq<bv64>, subs: map<nat, seq<string>>, fake: User, rules0: seq<Rule>,
                     ghost v: UserState, ghost s: UserState, ghost r0: UserState, ghost spare: bool)
    returns (rules: seq<Rule>, ghost r: UserState)
    requires ValidEnv(env) && fake.Valid()
    requires |words| == WORDS && v.bits == Bits(words) && v.subs == subs && GoodSubLists(env.table, v.bits, subs)
    requires Replayed(env, s, rules0, r0, spare) && r0.bits == fake.View().bits && r0.subs == map[]
    modifies fake`allCommands, fake.words
    ensures PassAt(env, v, fake.View().bits, s, rules, r, r0, spare, |env.table|)
  {
    hide Bits, Replayed, ValidEnv, GoodSubLists, FixedUpTo, PassAt;
    rules, r := rules0, r0;
    NothingFixed(env.table, v, r);
    PassStarts(env, v, s, rules0, r0, spare);
    for i := 0 to |env.table|
      invariant PassAt(env, v, fake.View().bits, s, rules, r, r0, spare, i)
    {
      rules, r := FixNext(env, i, words, subs, fake, rules, v, s, r, r0, spare);
    }
  }

  lemma PassStarts(env: Env, v: UserState, s: UserState, rules: seq<Rule>, r: UserState, spare: bool)
    requires Replayed(env, s, rules, r, spare) && FixedUpTo(env.table, v, r, 0)
    ensures PassAt(env, v, r.bits, s, rules, r, r, spare, 0)
  {
  }

  // ----- the greedy loop over the categories

  /** The category loop: r is what the rules replay to, the fake user has its bits. */
  ghost predicate LoopAt(env: Env, fakeBits: seq<bool>, s: UserState, rules: seq<Rule>, r: UserState, spare: bool) {
    Replayed(env, s, rules, r, spare) && r.bits == fakeBits && r.subs == map[]
  }

  lemma LoopNext(env: Env, fake: UserState, s: UserState, rules: seq<Rule>, r: UserState, spare: bool, c: nat,
                 allow: bool)
    requires LoopAt(env, fake.bits, s, rules, r, spare) && c < CATEGORY_COUNT
    ensures LoopAt(env, SetCategory(env.table, fake, c, allow, |env.table|).bits, s, rules + [Category(c, allow)],
                   SetCategory(env.table, r, c, allow, |env.table|), spare)
  {
    hide Replayed, SetCategory;
    CategoryRule(env, s, rules, r, spare, c, allow);
    CategoryBits(env.table, fake, r, c, allow, |env.table|);
  }

  method SetOneCategory(env: Env, u: User, c: nat, allow: bool)
    requires u.Valid() && c < CATEGORY_COUNT
    modifies u, u.words
    ensures u.View() == SetCategory(env.table, old(u.View()), c, allow, |env.table|)
  {
    hide Bits, SetCategory;
    var _ := u.SetUser(env, Category(c, allow));
  }

  // ----- a user who may run everything

  /** Of the commands of the category more lie past the bitmap than inside it. */
  predicate Swamped(table: seq<Cmd>, c: nat) {
    CountIds(table, c, true, |table|) > CountIds(table, c, false, |table|)
  }

  /** The rule for the category reaches a bit of the bitmap through one of the first n commands. */
  predicate Touches(table: seq<Cmd>, c: nat, n: nat)
    requires n <= |table|
  {
    exists i :: 0 <= i < n && !table[i].fromModule && c in table[i].categories && table[i].id < USER_COMMAND_BITS_COUNT
  }

  /** No category that is worth removing from a user who may run everything has a command of the bitmap. */
  predicate Tame(table: seq<Cmd>) {
    forall c :: 0 <= c < CATEGORY_COUNT && Swamped(table, c) ==> !Touches(table, c, |table|)
  }

  lemma WorthwhileWhenFull(table: seq<Cmd>, bits: seq<bool>, c: nat)
    requires |bits| == USER_COMMAND_BITS_COUNT && AllSet(bits)
    ensures Worthwhile(table, bits, false, c) <==> Swamped(table, c)
  {
    hide CountBits, CountIds, AllSet;
    CountsWhenFull(table, bits, c, false, |table|);
    CountsWhenFull(table, bits, c, true, |table|);
  }

  lemma {:induction false} StaysFull(table: seq<Cmd>, u: UserState, c: nat, n: nat)
    requires AllSet(u.bits) && n <= |table|
    ensures SetCategory(table, u, c, true, n).bits == u.bits
  {
    if n > 0 {
      StaysFull(table, u, c, n - 1);
    }
  }

  /** Removing a category clears the ALLCOMMANDS flag exactly if it reaches a bit. */
  lemma {:induction false} FlagAfterRemoval(table: seq<Cmd>, u: UserState, c: nat, n: nat)
    requires |u.bits| == USER_COMMAND_BITS_COUNT && n <= |table|
    ensures var v := SetCategory(table, u, c, false, n);
            |v.bits| == USER_COMMAND_BITS_COUNT && (v.allCommands <==> u.allCommands && !Touches(table, c, n))
  {
    if n > 0 {
      FlagAfterRemoval(table, u, c, n - 1);
      assert Touches(table, c, n)
        <==> Touches(table, c, n - 1)
             || (!table[n - 1].fromModule && c in table[n - 1].categories
                 && table[n - 1].id < USER_COMMAND_BITS_COUNT);
    }
  }

  /** The loop for a user with every bit set: which categories were removed, and what became of the flag. */
  ghost predicate FullLoop(table: seq<Cmd>, applied: seq<bool>, r: UserState) {
    && |applied| == CATEGORY_COUNT && |r.bits| == USER_COMMAND_BITS_COUNT
    && (forall c :: 0 <= c < CATEGORY_COUNT && applied[c] ==> Swamped(table, c))
    && (r.allCommands <==> forall c :: 0 <= c < CATEGORY_COUNT && applied[c] ==> !Touches(table, c, |table|))
  }

  lemma FullLoopStarts(table: seq<Cmd>, r: UserState)
    requires |r.bits| == USER_COMMAND_BITS_COUNT && r.allCommands
    ensures FullLoop(table, seq(CATEGORY_COUNT, _ => false), r)
  {
  }

  lemma FullLoopNext(table: seq<Cmd>, bits: seq<bool>, applied: seq<bool>, r: UserState, best: nat)
    requires |bits| == USER_COMMAND_BITS_COUNT && AllSet(bits) && FullLoop(table, applied, r)
    requires best < CATEGORY_COUNT && IsBest(table, bits, false, applied, CATEGORY_COUNT, best)
    ensures FullLoop(table, applied[best := true], SetCategory(table, r, best, false, |table|))
  {
    hide Swamped, Touches, AllSet, SetCategory, Worthwhile, Preferred;
    WorthwhileWhenFull(table, bits, best);
    FlagAfterRemoval(table, r, best, |table|);
  }

  lemma FullLoopEnds(table: seq<Cmd>, bits: seq<bool>, applied: seq<bool>, r: UserState)
    requires |bits| == USER_COMMAND_BITS_COUNT && AllSet(bits) && FullLoop(table, applied, r)
    requires IsBest(table, bits, false, applied, CATEGORY_COUNT, -1)
    ensures r.allCommands <==> Tame(table)
  {
    hide Swamped, Touches, AllSet, Worthwhile, Preferred;
    forall c | 0 <= c < CATEGORY_COUNT
      ensures applied[c] <==> Swamped(table, c)
    {
      WorthwhileWhenFull(table, bits, c);
    }
  }

  lemma {:induction false} NonePast(table: seq<Cmd>, c: nat, n: nat)
    requires n <= |table| && forall i :: 0 <= i < |table| ==> table[i].id < USER_COMMAND_BITS_COUNT
    ensures CountIds(table, c, true, n) == 0
  {
    if n > 0 {
      NonePast(table, c, n - 1);
    }
  }

  /** While every command has its bit, nothing is worth removing. */
  lemma SmallTablesAreTame(table: seq<Cmd>)
    requires forall i :: 0 <= i < |table| ==> table[i].id < USER_COMMAND_BITS_COUNT
    ensures Tame(table)
  {
    hide Touches, CountIds;
    forall c | 0 <= c < CATEGORY_COUNT
      ensures !Swamped(table, c)
    {
      NonePast(table, c, |table|);
    }
  }

  /** A category with one command inside the bitmap and two past it. */
  function CrowdedTable(): seq<Cmd> {
    [Cmd("a", 0, {0}, false), Cmd("b", USER_COMMAND_BITS_COUNT, {0}, false),
     Cmd("c", USER_COMMAND_BITS_COUNT + 1, {0}, false)]
  }

  lemma CrowdedIsNotTame()
    ensures !Tame(CrowdedTable())
  {
    var table := CrowdedTable();
    assert CountIds(table, 0, true, 1) == 0 && CountIds(table, 0, false, 1) == 1;
    assert CountIds(table, 0, true, 2) == 1 && CountIds(table, 0, false, 2) == 1;
    assert CountIds(table, 0, true, 3) == 2 && CountIds(table, 0, false, 3) == 1;
    assert Swamped(table, 0);
    assert !table[0].fromModule && 0 in table[0].categories;
    assert Touches(table, 0, 3);
  }

  /**
   The loop over the categories. It ends because every round marks one more category as
   applied; what it picks never matters for the outcome, only for the length of the text.
   */
  method ApplyCategories(env: Env, fake: User, temp: User, additive: bool, rules0: seq<Rule>, ghost s: UserState,
                         ghost r0: UserState)
    returns (rules: seq<Rule>, ghost r: UserState)
    requires ValidEnv(env) && fake.Valid() && temp.Valid() && fake != temp && fake.words != temp.words
    requires LoopAt(env, fake.View().bits, s, rules0, r0, !additive) && (!additive ==> r0.allCommands)
    modifies fake, fake.words, temp, temp.words
    ensures LoopAt(env, fake.View().bits, s, rules, r, !additive)
    ensures !additive && AllSet(old(temp.View().bits)) ==> (r.allCommands <==> Tame(env.table))
  {
    hide Bits, LoopAt, ValidEnv, SetCategory, AllSet, IsBest, FullLoop, Tame;
    rules, r := rules0, r0;
    var applied := seq(CATEGORY_COUNT, _ => false);
    ghost var start := temp.View().bits;
    ghost var full := !additive && AllSet(start);
    if full {
      LoopSizes(env, fake.View().bits, s, rules, r, true);
      FullLoopStarts(env.table, r);
    }
    while true
      invariant |applied| == CATEGORY_COUNT
      invariant LoopAt(env, fake.View().bits, s, rules, r, !additive)
      invariant full ==> FullLoop(env.table, applied, r) && temp.View().bits == start
      decreases Count(applied, false)
    {
      var best := FindBest(env, temp, applied, additive);
      if best == -1 {
        if full {
          FullLoopEnds(env.table, start, applied, r);
        }
        break;
      }
      BestIsOpen(env.table, temp.View().bits, additive, applied, best);
      if full {
        FullLoopNext(env.table, start, applied, r, best);
        StaysFull(env.table, temp.View(), best, |env.table|);
      }
      LoopNext(env, fake.View(), s, rules, r, !additive, best, additive);
      SetOneCategory(env, fake, best, additive);
      SetOneCategory(env, temp, best, !additive);
      rules := rules + [Category(best, additive)];
      r := SetCategory(env.table, r, best, additive, |env.table|);
      CountUpdate(applied, best, true, false);
      applied := applied[best := true];
    }
  }

  lemma LoopSizes(env: Env, fakeBits: seq<bool>, s: UserState, rules: seq<Rule>, r: UserState, spare: bool)
    requires LoopAt(env, fakeBits, s, rules, r, spare)
    ensures |r.bits| == USER_COMMAND_BITS_COUNT
  {
    hide Replay, AllSet;
  }

  lemma BestIsOpen(table: seq<Cmd>, bits: seq<bool>, additive: bool, applied: seq<bool>, best: int)
    requires best >= 0 && IsBest(table, bits, additive, applied, CATEGORY_COUNT, best)
    ensures best < |applied| && !applied[best]
  {
  }

  // ----- the command rules of a user

  /** What the rules of v rebuild on top of s. */
  ghost function WithCommandsOf(env: Env, s: UserState, v: UserState): UserState {
    s.(bits := v.bits, subs := v.subs, allCommands := AllSet(v.bits) && Tame(env.table))
  }

  lemma AllFixed(env: Env, v: UserState, r: UserState, spare: bool)
    requires FixedUpTo(env.table, v, r, |env.table|) && GoodCommands(env.table, v.bits, v.allCommands, v.subs)
    requires SpareBits(env.table, r.bits, spare) && spare == v.bits[USER_COMMAND_BITS_COUNT - 1]
    ensures r.bits == v.bits && r.subs == v.subs
  {
    hide AllSet;
    forall k | 0 <= k < USER_COMMAND_BITS_COUNT
      ensures r.bits[k] == v.bits[k]
    {
      if IsCommandId(env.table, k) {
        var i :| 0 <= i < |env.table| && env.table[i].id == k;
        assert BitOf(r.bits, env.table[i].id) == BitOf(v.bits, env.table[i].id);
      }
    }
    assert r.bits == v.bits;
    assert env.table[..|env.table|] == env.table;
    assert r.subs == v.subs;
  }

  /** After the final pass nothing is left to repair, and the ALLCOMMANDS flag is exact. */
  lemma PassEnds(env: Env, v: UserState, fakeBits: seq<bool>, s: UserState, rules: seq<Rule>, r: UserState,
                 r0: UserState)
    requires GoodCommands(env.table, v.bits, v.allCommands, v.subs)
    requires PassAt(env, v, fakeBits, s, rules, r, r0, v.bits[USER_COMMAND_BITS_COUNT - 1], |env.table|)
    requires AllSet(v.bits) ==> (r0.allCommands <==> Tame(env.table))
    ensures fakeBits == v.bits
    ensures Replay(env, s, rules) == Accepted(WithCommandsOf(env, s, v))
  {
    hide FixedUpTo, SpareBits, AllSet, GoodSubLists, Replay, Tame;
    AllFixed(env, v, r, v.bits[USER_COMMAND_BITS_COUNT - 1]);
  }

  lemma StartLoop(env: Env, s: UserState, value: bool)
    ensures LoopAt(env, AllBits(value), s, [if value then AllCommands else NoCommands], SetAll(s, value), value)
  {
    hide Replayed, AllBits;
    StartRule(env, s, value);
  }

  /** Starting from everything or nothing and applying categories. */
  method ApproximateCommands(env: Env, u: User, fake: User, future: bool, ghost s: UserState)
    returns (rules: seq<Rule>, ghost r: UserState)
    requires ValidEnv(env) && u.Valid() && fake.Valid() && u != fake && u.words != fake.words
    modifies fake, fake.words
    ensures LoopAt(env, fake.View().bits, s, rules, r, future)
    ensures future && AllSet(u.View().bits) ==> (r.allCommands <==> Tame(env.table))
  {
    hide Bits, LoopAt, ValidEnv, AllBits, AllSet, Tame;
    var first := if future then AllCommands else NoCommands;
    var _ := fake.SetUser(env, first);
    StartLoop(env, s, future);
    var temp := new User.Zeroed();
    temp.CopyBits(u);
    rules, r := ApplyCategories(env, fake, temp, !future, [first], s, SetAll(s, future));
  }

  lemma FutureBit(bits: seq<bool>)
    requires |bits| == USER_COMMAND_BITS_COUNT && AllSet(bits)
    ensures bits[USER_COMMAND_BITS_COUNT - 1]
  {
  }

  lemma LoopEnds(env: Env, fakeBits: seq<bool>, s: UserState, rules: seq<Rule>, r: UserState, spare: bool)
    requires LoopAt(env, fakeBits, s, rules, r, spare)
    ensures Replayed(env, s, rules, r, spare) && r.bits == fakeBits && r.subs == map[]
  {
  }

  /**
   ACLDescribeUserCommandRules: replayed on any user, the rules give it the commands of u.
   The check at the end never fails.
   */
  method DescribeUserCommandRules(env: Env, u: User, ghost s: UserState) returns (rules: seq<Rule>, panics: bool)
    requires ValidEnv(env) && u.Valid() && WellFormed(env, u.View())
    ensures !panics
    ensures Replay(env, s, rules) == Accepted(WithCommandsOf(env, s, u.View()))
  {
    hide Bits, LoopAt, ValidEnv, PassAt, Replayed, AllSet, SpareBits, GoodSubLists, GoodFlags, WithCommandsOf,
        Replay, SetAll, Tame;
    ghost var v := u.View();
    var future := u.GetCommandBit(USER_COMMAND_BITS_COUNT - 1);
    var fake := new User.Zeroed();
    ghost var r0;
    rules, r0 := ApproximateCommands(env, u, fake, future, s);
    assert u.View() == v;
    LoopEnds(env, fake.View().bits, s, rules, r0, future);
    ghost var r;
    rules, r := FixCommands(env, u.words[..], u.subs, fake, rules, v, s, r0, future);
    assert u.View() == v;
    if AllSet(v.bits) {
      FutureBit(v.bits);
    }
    PassEnds(env, v, fake.View().bits, s, rules, r, r0);
    var same := fake.SameBitmap(u);
    panics := !same;
  }

  // ----- the whole user

  /** The flags of v on top of a fresh user. */
  ghost function WithFlagsOf(f: UserState, v: UserState): UserState {
    f.(enabled := v.enabled, disabled := v.disabled, noPass := v.noPass,
       skipSanitize := v.skipSanitize, sanitize := v.sanitize)
  }

  lemma FlagRule(env: Env, f: UserState, rules: seq<Rule>, r: UserState, rule: Rule)
    requires Replay(env, f, rules) == Accepted(r)
    requires rule.On? || rule.Off? || rule.NoPass? || rule.SkipSanitize? || rule.Sanitize?
    ensures Replay(env, f, rules + [rule])
         == Accepted(match rule
                     case On => r.(enabled := true, disabled := false)
                     case Off => r.(disabled := true, enabled := false)
                     case NoPass => r.(noPass := true, passwords := [])
                     case SkipSanitize => r.(skipSanitize := true, sanitize := false)
                     case Sanitize => r.(skipSanitize := false, sanitize := true)
                     case _ => r)
  {
    hide Replay, Lookup, SetCategory, AddSub, SetAll, ResetUser;
    ReplaySnoc(env, f, rules, r, rule);
  }

  method DescribeFlags(env: Env, u: User) returns (rules: seq<Rule>)
    requires u.Valid() && GoodFlags(u.View())
    ensures Replay(env, Fresh(env), rules) == Accepted(WithFlagsOf(Fresh(env), u.View()))
  {
    hide Replay, Bits, AllBits, GoodPasswords, GoodPatterns;
    ghost var f := Fresh(env);
    rules := [];
    ghost var r := f;
    ReplayNothing(env, f);
    if u.enabled {
      FlagRule(env, f, rules, r, On);
      rules := rules + [On];
      r := r.(enabled := true, disabled := false);
    }
    if u.disabled {
      FlagRule(env, f, rules, r, Off);
      rules := rules + [Off];
      r := r.(disabled := true, enabled := false);
    }
    if u.noPass {
      FlagRule(env, f, rules, r, NoPass);
      rules := rules + [NoPass];
      r := r.(noPass := true, passwords := []);
    }
    if u.skipSanitize {
      FlagRule(env, f, rules, r, SkipSanitize);
      rules := rules + [SkipSanitize];
      r := r.(skipSanitize := true, sanitize := false);
    }
    if u.sanitize {
      FlagRule(env, f, rules, r, Sanitize);
      rules := rules + [Sanitize];
      r := r.(skipSanitize := false, sanitize := true);
    }
  }

  lemma ReplayNothing(env: Env, f: UserState)
    ensures Replay(env, f, []) == Accepted(f)
  {
  }

  /** The passwords, as hashes. */
  method DescribePasswords(env: Env, list: seq<string>, rules0: seq<Rule>, ghost f: UserState, ghost r: UserState)
    returns (rules: seq<Rule>)
    requires Replay(env, f, rules0) == Accepted(r) && r.passwords == [] && GoodPasswords(list)
             && (r.noPass ==> list == [])
    ensures Replay(env, f, rules) == Accepted(r.(passwords := list))
  {
    hide Replay, IsHash, Lookup, SetCategory, AddSub, SetAll, ResetUser;
    rules := rules0;
    for i := 0 to |list|
      invariant Replay(env, f, rules) == Accepted(r.(passwords := list[..i]))
    {
      ReplaySnoc(env, f, rules, r.(passwords := list[..i]), AddHash(list[i]));
      rules := rules + [AddHash(list[i])];
      assert list[i] !in list[..i];
      assert list[..i + 1] == list[..i] + [list[i]];
    }
    assert list[..|list|] == list;
  }

  /** The key patterns. */
  method DescribePatterns(env: Env, allKeys: bool, list: seq<string>, rules0: seq<Rule>, ghost f: UserState,
                          ghost r: UserState)
    returns (rules: seq<Rule>)
    requires Replay(env, f, rules0) == Accepted(r) && r.patterns == [] && !r.allKeys
    requires GoodPatterns(list) && (allKeys ==> list == [])
    ensures Replay(env, f, rules) == Accepted(r.(allKeys := allKeys, patterns := list))
  {
    hide Replay, HasSpaces, Lookup, SetCategory, AddSub, SetAll, ResetUser;
    rules := rules0;
    if allKeys {
      ReplaySnoc(env, f, rules, r, KeyPattern("*"));
      rules := rules + [KeyPattern("*")];
    } else {
      for i := 0 to |list|
        invariant Replay(env, f, rules) == Accepted(r.(patterns := list[..i]))
      {
        ReplaySnoc(env, f, rules, r.(patterns := list[..i]), KeyPattern(list[i]));
        rules := rules + [KeyPattern(list[i])];
        assert list[i] in list && list[i] !in list[..i];
        assert list[..i + 1] == list[..i] + [list[i]];
      }
      assert list[..|list|] == list;
    }
  }

  /** The channel patterns; a fresh user may start with all channels. */
  method DescribeChannels(env: Env, allChannels: bool, list: seq<string>, rules0: seq<Rule>, ghost f: UserState,
                          ghost r: UserState)
    returns (rules: seq<Rule>)
    requires Replay(env, f, rules0) == Accepted(r)
    requires GoodPatterns(list) && (allChannels ==> list == [])
    ensures Replay(env, f, rules) == Accepted(r.(allChannels := allChannels, channels := list))
  {
    hide Replay, HasSpaces, Lookup, SetCategory, AddSub, SetAll, ResetUser;
    rules := rules0;
    if allChannels {
      ReplaySnoc(env, f, rules, r, ChannelPattern("*"));
      rules := rules + [ChannelPattern("*")];
    } else {
      ReplaySnoc(env, f, rules, r, ResetChannels);
      rules := rules + [ResetChannels];
      for i := 0 to |list|
        invariant Replay(env, f, rules) == Accepted(r.(allChannels := false, channels := list[..i]))
      {
        ReplaySnoc(env, f, rules, r.(allChannels := false, channels := list[..i]), ChannelPattern(list[i]));
        rules := rules + [ChannelPattern(list[i])];
        assert list[i] in list && list[i] !in list[..i];
        assert list[..i + 1] == list[..i] + [list[i]];
      }
      assert list[..|list|] == list;
    }
  }

  /** The user as it comes back: only the ALLCOMMANDS flag may differ. */
  ghost function Restored(env: Env, v: UserState): UserState {
    v.(allCommands := AllSet(v.bits) && Tame(env.table))
  }

  /** Everything of v but its commands, on top of a fresh user. */
  ghost function WithSettingsOf(f: UserState, v: UserState): UserState {
    v.(bits := f.bits, subs := f.subs, allCommands := f.allCommands)
  }

  /** Flags, passwords and patterns, in the order they are printed. */
  method DescribeSettings(env: Env, u: User) returns (rules: seq<Rule>)
    requires u.Valid() && GoodFlags(u.View())
    ensures Replay(env, Fresh(env), rules) == Accepted(WithSettingsOf(Fresh(env), u.View()))
  {
    hide Bits, Replay, GoodPasswords, GoodPatterns, AllBits;
    ghost var f, v := Fresh(env), u.View();
    rules := DescribeFlags(env, u);
    ghost var r1 := WithFlagsOf(f, v);
    rules := DescribePasswords(env, u.passwords, rules, f, r1);
    ghost var r2 := r1.(passwords := v.passwords);
    rules := DescribePatterns(env, u.allKeys, u.patterns, rules, f, r2);
    ghost var r3 := r2.(allKeys := v.allKeys, patterns := v.patterns);
    rules := DescribeChannels(env, u.allChannels, u.channels, rules, f, r3);
  }

  /** ACLDescribeUser: replaying its rules on a fresh user restores the user. */
  method DescribeUser(env: Env, u: User) returns (rules: seq<Rule>, panics: bool)
    requires ValidEnv(env) && u.Valid() && WellFormed(env, u.View())
    ensures !panics
    ensures Replay(env, Fresh(env), rules) == Accepted(Restored(env, u.View()))
  {
    hide Bits, ValidEnv, Replay, AllSet, GoodFlags, GoodCommands, Fresh, Tame;
    ghost var f, v := Fresh(env), u.View();
    rules := DescribeSettings(env, u);
    ghost var r := WithSettingsOf(f, v);
    var commands;
    commands, panics := DescribeUserCommandRules(env, u, r);
    ReplayAppend(env, f, rules, r, commands);
    rules := rules + commands;
  }

  /**
   For every user reached from a fresh one by accepted rules that stay inside the table of
   subcommands: what is described is a well formed user, a second description changes
   nothing more, and a user who may run everything comes back as such if and only if the
   command table is tame.
   */
  lemma DescribedUsers(env: Env, history: seq<Rule>)
    requires ValidEnv(env) && Replay(env, Fresh(env), history).Accepted?
    requires forall i :: 0 <= i < |history| ==> Inside(env, history[i])
    ensures var v := Replay(env, Fresh(env), history).user;
            && WellFormed(env, v)
            && (v.allCommands ==> (Restored(env, v) == v <==> Tame(env.table)))
            && Restored(env, Restored(env, v)) == Restored(env, v)
  {
    hide ValidEnv, Replay, AllBits, AllSet, GoodFlags, SpareBits, GoodSubLists, Tame, Inside;
    FreshIsWellFormed(env);
    ReachedIsWellFormed(env, Fresh(env), history);
  }

  /**
   An instance: with a command table in which a category has one command inside the bitmap
   and two past it, a user with all commands does not get the ALLCOMMANDS flag back.
   */
  lemma FlagIsLost(hash: string -> string)
    requires forall p :: IsHash(hash(p))
    ensures var env := Env(CrowdedTable(), hash, true);
            && ValidEnv(env) && Replay(env, Fresh(env), [AllCommands]).Accepted?
            && var v := Replay(env, Fresh(env), [AllCommands]).user;
               v.allCommands && AllSet(v.bits) && !Restored(env, v).allCommands
  {
    hide Tame, IsHash;
    var env := Env(CrowdedTable(), hash, true);
    assert ValidEnv(env) by { CrowdedIsValid(env); }
    CrowdedIsNotTame();
    assert [AllCommands] == [] + [AllCommands];
    ReplayNothing(env, Fresh(env));
    ReplaySnoc(env, Fresh(env), [], Fresh(env), AllCommands);
  }

  lemma CrowdedIsValid(env: Env)
    requires env.table == CrowdedTable() && forall p :: IsHash(env.hash(p))
    ensures ValidEnv(env)
  {
    assert Lower("a") == "a" && Lower("b") == "b" && Lower("c") == "c";
    assert "a"[0] != "b"[0] && "a"[0] != "c"[0] && "b"[0] != "c"[0];
  }

  // ----- command ids

  ghost predicate GivenOut(ids: map<string, nat>, i: nat) {
    exists n :: n in ids && ids[n] == i
  }

  lemma GivenMore(ids: map<string, nat>, more: map<string, nat>, name: string, next: nat)
    requires name !in ids && more == ids[name := next]
    requires forall i: nat :: i < next && i != USER_COMMAND_BITS_COUNT - 1 ==> GivenOut(ids, i)
    ensures forall i: nat :: i <= next && i != USER_COMMAND_BITS_COUNT - 1 ==> GivenOut(more, i)
  {
    assert more[name] == next;
    forall i: nat | i < next && i != USER_COMMAND_BITS_COUNT - 1
      ensures GivenOut(more, i)
    {
      assert GivenOut(ids, i);
      var n :| n in ids && ids[n] == i;
      assert n in more && more[n] == i;
    }
  }

  /** The table behind ACLGetCommandID. */
  class CommandNames {
    var ids: map<string, nat>
    var next: nat

    /** Ids are distinct, were given out in order without a gap, and the reserved one never is. */
    ghost predicate Valid()
      reads this
    {
      && next != USER_COMMAND_BITS_COUNT - 1
      && (forall n :: n in ids ==> ids[n] < next && ids[n] != USER_COMMAND_BITS_COUNT - 1)
      && (forall m, n :: m in ids && n in ids && m != n ==> ids[m] != ids[n])
      && (forall i: nat :: i < next && i != USER_COMMAND_BITS_COUNT - 1 ==> GivenOut(ids, i))
    }

    constructor ()
      ensures Valid() && ids == map[] && next == 0
    {
      ids, next := map[], 0;
    }

    /** ACLGetCommandID: the id of a name, the same on every call. */
    method GetCommandID(name: string) returns (id: nat)
      requires Valid()
      modifies this
      ensures Valid()
      ensures Lower(name) in ids && ids[Lower(name)] == id
      ensures forall n :: n in old(ids) ==> n in ids && ids[n] == old(ids)[n]
      ensures ids.Keys == old(ids).Keys + {Lower(name)}
      ensures Lower(name) !in old(ids) ==> forall n :: n in old(ids) ==> old(ids)[n] < id
    {
      hide Lower;
      var lower := Lower(name);
      if lower in ids { return ids[lower]; }
      ids := ids[lower := next];
      GivenMore(old(ids), ids, lower, next);
      id := next;
      next := next + 1;
      if next == USER_COMMAND_BITS_COUNT - 1 {
        next := next + 1;
      }
    }
  }
}
