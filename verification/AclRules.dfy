/**
 What one rule of ACL SETUSER does to a user, as a function on values, and what every
 user reached by accepted rules looks like. Rules are tokens: the text of a rule is
 already split into its kind and its operand.
 */
module AclRules {
  import opened CommandBits

  /** ACLCommandCategories */
  const CATEGORIES: seq<string> := [
    "keyspace", "read", "write", "set", "sortedset", "list", "hash", "string", "bitmap", "hyperloglog", "geo",
    "stream", "pubsub", "admin", "fast", "slow", "blocking", "dangerous", "connection", "transaction", "scripting"]
  const CATEGORY_COUNT: nat := |CATEGORIES|
  const HASH_PASSWORD_LEN: nat := 64
  const INT_MAX: nat := 0x7fff_ffff

  /** A command of the original command table; categories are positions in the category list. */
  datatype Cmd = Cmd(name: string, id: nat, categories: set<nat>, fromModule: bool)

  datatype Env = Env(table: seq<Cmd>, hash: string -> string, allChannelsByDefault: bool)

  datatype Rule =
    | Nothing
    | On
    | Off
    | SkipSanitize
    | Sanitize
    | ResetKeys
    | ResetChannels
    | AllCommands
    | NoCommands
    | NoPass
    | ResetPass
    | AddPassword(clear: string)
    | AddHash(hash: string)
    | RemovePassword(clear: string)
    | RemoveHash(hash: string)
    | KeyPattern(pattern: string)
    | ChannelPattern(pattern: string)
    | Allow(name: string)
    | AllowSub(name: string, sub: string)
    | Deny(name: string)
    | Category(category: nat, allow: bool)
    | Reset
    | Unknown

  datatype Error = EINVAL | ENOENT | EEXIST | EISDIR | ENODEV | EBADMSG

  /** The flags, lists and bitmap of a user; subs holds the lists that are not empty. */
  datatype UserState = UserState(
    enabled: bool,
    disabled: bool,
    skipSanitize: bool,
    sanitize: bool,
    allKeys: bool,
    allChannels: bool,
    allCommands: bool,
    noPass: bool,
    passwords: seq<string>,
    patterns: seq<string>,
    channels: seq<string>,
    bits: seq<bool>,
    subs: map<nat, seq<string>>)

  datatype Outcome = Accepted(user: UserState) | Rejected(error: Error)

  // ----- text

  function LowerChar(c: char): char {
    if 'A' <= c <= 'Z' then c + (32 as char) else c
  }

  /** sdstolower, and what strcasecmp compares. */
  function Lower(s: string): string {
    seq(|s|, i requires 0 <= i < |s| => LowerChar(s[i]))
  }

  /** Two names are the same command if and only if they have the same letters, whatever their case. */
  lemma SameLower(s: string, t: string)
    ensures Lower(s) == Lower(t) <==>
              && |s| == |t|
              && forall i :: 0 <= i < |s| ==> s[i] == t[i] || SameLetter(s[i], t[i]) || SameLetter(t[i], s[i])
  {
    if Lower(s) == Lower(t) {
      assert |Lower(s)| == |Lower(t)|;
      forall i | 0 <= i < |s|
        ensures s[i] == t[i] || SameLetter(s[i], t[i]) || SameLetter(t[i], s[i])
      {
        assert Lower(s)[i] == Lower(t)[i];
      }
    }
  }

  /** The first is a capital letter and the second is the small one. */
  predicate SameLetter(c: char, d: char) {
    65 <= c as int <= 90 && d as int == c as int + 32
  }

  predicate HasSpaces(s: string) {
    ' ' in s || '\0' in s || '\t' in s || '\n' in s || '\r' in s || 11 as char in s || 12 as char in s
  }

  predicate IsHash(s: string) {
    |s| == HASH_PASSWORD_LEN && forall i :: 0 <= i < |s| ==> '0' <= s[i] <= '9' || 'a' <= s[i] <= 'f'
  }

  // ----- the command table

  /** Ids are distinct and never the reserved one, but some may lie past the end of the bitmap. */
  ghost predicate ValidEnv(env: Env) {
    && |env.table| < INT_MAX
    && (forall i :: 0 <= i < |env.table| ==> env.table[i].id != USER_COMMAND_BITS_COUNT - 1)
    && (forall i :: 0 <= i < |env.table| ==> Lower(env.table[i].name) == env.table[i].name)
    && (forall i, j :: 0 <= i < j < |env.table| ==> env.table[i].id != env.table[j].id)
    && (forall i, j :: 0 <= i < j < |env.table| ==> env.table[i].name != env.table[j].name)
    && (forall p :: IsHash(env.hash(p)))
  }

  /** ACLLookupCommand: the position of a command, or -1. */
  function Lookup(table: seq<Cmd>, name: string): (r: int)
    ensures -1 <= r < |table| && (r >= 0 ==> table[r].name == Lower(name))
    ensures r < 0 ==> forall i :: 0 <= i < |table| ==> table[i].name != Lower(name)
  {
    if table == [] then -1
    else if table[|table| - 1].name == Lower(name) then |table| - 1
    else Lookup(table[..|table| - 1], name)
  }

  predicate IsCommandId(table: seq<Cmd>, id: nat) {
    exists i :: 0 <= i < |table| && table[i].id == id
  }

  // ----- one rule

  function AddOnce(list: seq<string>, x: string): seq<string> {
    if x in list then list else list + [x]
  }

  function RemoveFirst(list: seq<string>, x: string): seq<string> {
    if list == [] then []
    else if list[0] == x then list[1..]
    else [list[0]] + RemoveFirst(list[1..], x)
  }

  function AllBits(value: bool): (r: seq<bool>)
    ensures |r| == USER_COMMAND_BITS_COUNT && forall i :: 0 <= i < |r| ==> r[i] == value
  {
    seq(USER_COMMAND_BITS_COUNT, _ => value)
  }

  predicate AllSet(bits: seq<bool>) {
    forall i :: 0 <= i < |bits| ==> bits[i]
  }

  /** ACLSetUserCommandBit */
  function SetBit(u: UserState, id: nat, value: bool): UserState {
    if id < |u.bits| then u.(bits := u.bits[id := value], allCommands := u.allCommands && value) else u
  }

  /** Allowing or denying one command also forgets its subcommands. */
  function SetCommand(u: UserState, id: nat, value: bool): UserState {
    var v := SetBit(u, id, value);
    v.(subs := v.subs - {id})
  }

  /** The first n commands of the table, as far as they are in the category. */
  function SetCategory(table: seq<Cmd>, u: UserState, category: nat, value: bool, n: nat): UserState
    requires n <= |table|
  {
    if n == 0 then u
    else
      var v := SetCategory(table, u, category, value, n - 1);
      var cmd := table[n - 1];
      if !cmd.fromModule && category in cmd.categories then SetCommand(v, cmd.id, value) else v
  }

  function SetAll(u: UserState, value: bool): UserState {
    u.(bits := AllBits(value), allCommands := value, subs := map[])
  }

  predicate Listed(subs: seq<string>, sub: string) {
    exists i :: 0 <= i < |subs| && Lower(subs[i]) == Lower(sub)
  }

  function SubsOf(u: UserState, id: nat): seq<string> {
    if id in u.subs then u.subs[id] else []
  }

  /** ACLAddAllowedSubcommand */
  function AddSub(u: UserState, id: nat, sub: string): UserState {
    if Listed(SubsOf(u, id), sub) then u else u.(subs := u.subs[id := SubsOf(u, id) + [sub]])
  }

  function AddHashed(u: UserState, hash: string): UserState {
    u.(passwords := AddOnce(u.passwords, hash), noPass := false)
  }

  function RemoveHashed(u: UserState, hash: string): Outcome {
    if hash in u.passwords then Accepted(u.(passwords := RemoveFirst(u.passwords, hash))) else Rejected(ENODEV)
  }

  function ResetUser(env: Env, u: UserState): UserState {
    SetAll(u, false).(
      noPass := false, passwords := [], allKeys := false, patterns := [],
      allChannels := env.allChannelsByDefault, channels := [],
      disabled := true, enabled := false, sanitize := true, skipSanitize := false)
  }

  /** ACLSetUser */
  function Apply(env: Env, u: UserState, rule: Rule): Outcome {
    match rule
    case Nothing => Accepted(u)
    case On => Accepted(u.(enabled := true, disabled := false))
    case Off => Accepted(u.(disabled := true, enabled := false))
    case SkipSanitize => Accepted(u.(skipSanitize := true, sanitize := false))
    case Sanitize => Accepted(u.(skipSanitize := false, sanitize := true))
    case ResetKeys => Accepted(u.(allKeys := false, patterns := []))
    case ResetChannels => Accepted(u.(allChannels := false, channels := []))
    case AllCommands => Accepted(SetAll(u, true))
    case NoCommands => Accepted(SetAll(u, false))
    case NoPass => Accepted(u.(noPass := true, passwords := []))
    case ResetPass => Accepted(u.(noPass := false, passwords := []))
    case AddPassword(clear) => Accepted(AddHashed(u, env.hash(clear)))
    case AddHash(hash) => if IsHash(hash) then Accepted(AddHashed(u, hash)) else Rejected(EBADMSG)
    case RemovePassword(clear) => RemoveHashed(u, env.hash(clear))
    case RemoveHash(hash) => if IsHash(hash) then RemoveHashed(u, hash) else Rejected(EBADMSG)
    case KeyPattern(p) =>
      if p == "*" then Accepted(u.(allKeys := true, patterns := []))
      else if u.allKeys then Rejected(EEXIST)
      else if HasSpaces(p) then Rejected(EINVAL)
      else Accepted(u.(patterns := AddOnce(u.patterns, p)))
    case ChannelPattern(p) =>
      if p == "*" then Accepted(u.(allChannels := true, channels := []))
      else if u.allChannels then Rejected(EISDIR)
      else if HasSpaces(p) then Rejected(EINVAL)
      else Accepted(u.(channels := AddOnce(u.channels, p)))
    case Allow(name) =>
      var i := Lookup(env.table, name);
      if i < 0 then Rejected(ENOENT) else Accepted(SetCommand(u, env.table[i].id, true))
    case AllowSub(name, sub) =>
      var i := Lookup(env.table, name);
      if i < 0 then Rejected(ENOENT)
      else if sub == "" then Rejected(EINVAL)
      else
        var id := env.table[i].id;
        Accepted(if id < |u.bits| && u.bits[id] then u else AddSub(u, id, sub))
    case Deny(name) =>
      var i := Lookup(env.table, name);
      if i < 0 then Rejected(ENOENT) else Accepted(SetCommand(u, env.table[i].id, false))
    case Category(c, allow) =>
      if c < CATEGORY_COUNT then Accepted(SetCategory(env.table, u, c, allow, |env.table|)) else Rejected(ENOENT)
    case Reset => Accepted(ResetUser(env, u))
    case Unknown => Rejected(EINVAL)
  }

  // ----- a list of rules

  function Replay(env: Env, u: UserState, rules: seq<Rule>): Outcome {
    if rules == [] then Accepted(u)
    else
      match Replay(env, u, rules[..|rules| - 1])
      case Accepted(v) => Apply(env, v, rules[|rules| - 1])
      case Rejected(e) => Rejected(e)
  }

  lemma ReplaySnoc(env: Env, u: UserState, rules: seq<Rule>, v: UserState, rule: Rule)
    requires Replay(env, u, rules) == Accepted(v)
    ensures Replay(env, u, rules + [rule]) == Apply(env, v, rule)
  {
    hide Apply;
    assert (rules + [rule])[..|rules + [rule]| - 1] == rules;
  }

  lemma {:induction false} ReplayAppend(env: Env, u: UserState, a: seq<Rule>, v: UserState, b: seq<Rule>)
    requires Replay(env, u, a) == Accepted(v)
    ensures Replay(env, u, a + b) == Replay(env, v, b)
    decreases |b|
  {
    hide Apply;
    if b == [] {
      assert a + b == a;
    } else {
      var init := b[..|b| - 1];
      ReplayAppend(env, u, a, v, init);
      assert (a + b)[..|a + b| - 1] == a + init;
    }
  }

  /** ACLCreateUser */
  function Fresh(env: Env): UserState {
    UserState(false, true, false, false, false, env.allChannelsByDefault, false, false, [], [], [], AllBits(false),
              map[])
  }

  // ----- every user

  predicate Distinct(list: seq<string>) {
    forall i, j :: 0 <= i < j < |list| ==> list[i] != list[j]
  }

  predicate GoodPatterns(list: seq<string>) {
    Distinct(list) && forall p :: p in list ==> p != "*" && !HasSpaces(p)
  }

  predicate GoodPasswords(list: seq<string>) {
    Distinct(list) && forall p :: p in list ==> IsHash(p)
  }

  predicate GoodSubs(subs: seq<string>) {
    && subs != []
    && (forall i :: 0 <= i < |subs| ==> subs[i] != "")
    && (forall i, j :: 0 <= i < j < |subs| ==> Lower(subs[i]) != Lower(subs[j]))
  }

  ghost predicate GoodFlags(u: UserState) {
    && u.enabled != u.disabled
    && !(u.skipSanitize && u.sanitize)
    && (u.noPass ==> u.passwords == [])
    && GoodPasswords(u.passwords)
    && (u.allKeys ==> u.patterns == []) && GoodPatterns(u.patterns)
    && (u.allChannels ==> u.channels == []) && GoodPatterns(u.channels)
  }

  /** Bits that belong to no command follow the reserved last bit. */
  ghost predicate SpareBits(table: seq<Cmd>, bits: seq<bool>, value: bool) {
    |bits| == USER_COMMAND_BITS_COUNT && forall i :: 0 <= i < |bits| && !IsCommandId(table, i) ==> bits[i] == value
  }

  ghost predicate GoodSubLists(table: seq<Cmd>, bits: seq<bool>, subs: map<nat, seq<string>>) {
    && (forall id :: id in subs ==> id < |bits| && !bits[id])
    && (forall id :: id in subs ==> IsCommandId(table, id))
    && (forall id :: id in subs ==> GoodSubs(subs[id]))
  }

  ghost predicate GoodCommands(table: seq<Cmd>, bits: seq<bool>, allCommands: bool, subs: map<nat, seq<string>>) {
    && |bits| == USER_COMMAND_BITS_COUNT
    && SpareBits(table, bits, bits[USER_COMMAND_BITS_COUNT - 1])
    && (allCommands ==> AllSet(bits))
    && GoodSubLists(table, bits, subs)
  }

  ghost predicate WellFormed(env: Env, u: UserState) {
    GoodFlags(u) && GoodCommands(env.table, u.bits, u.allCommands, u.subs)
  }

  lemma FreshIsWellFormed(env: Env)
    ensures WellFormed(env, Fresh(env))
  {
  }

  lemma {:induction false} RemoveFirstKeeps(list: seq<string>, x: string)
    ensures forall y :: y in RemoveFirst(list, x) ==> y in list
    ensures Distinct(list) ==> Distinct(RemoveFirst(list, x))
  {
    if list != [] && list[0] != x {
      RemoveFirstKeeps(list[1..], x);
      var rest := RemoveFirst(list[1..], x);
      assert forall y :: y in rest ==> y in list[1..];
      if Distinct(list) {
        assert forall i :: 0 < i < |list| ==> list[i] != list[0];
        assert list[0] !in list[1..];
      }
    }
  }

  lemma CommandIds(env: Env, i: nat)
    requires ValidEnv(env) && i < |env.table|
    ensures env.table[i].id != USER_COMMAND_BITS_COUNT - 1 && IsCommandId(env.table, env.table[i].id)
  {
  }

  lemma SetCommandKeeps(env: Env, u: UserState, i: nat, value: bool)
    requires ValidEnv(env) && WellFormed(env, u) && i < |env.table|
    ensures WellFormed(env, SetCommand(u, env.table[i].id, value))
  {
    hide ValidEnv, GoodPasswords, GoodPatterns, SpareBits, AllSet, GoodSubLists;
    var id := env.table[i].id;
    CommandIds(env, i);
    if id < USER_COMMAND_BITS_COUNT {
      SpareKept(env.table, u.bits, id, value);
      SettingKeepsAll(u.bits, id);
      SubListsKept(env.table, u.bits, u.subs, id, value);
    } else {
      FewerSubLists(env.table, u.bits, u.subs, id);
    }
  }

  lemma SpareKept(table: seq<Cmd>, bits: seq<bool>, id: nat, value: bool)
    requires id < |bits| == USER_COMMAND_BITS_COUNT && IsCommandId(table, id)
    requires SpareBits(table, bits, bits[USER_COMMAND_BITS_COUNT - 1])
    ensures SpareBits(table, bits[id := value], bits[USER_COMMAND_BITS_COUNT - 1])
  {
    hide IsCommandId;
  }

  lemma SettingKeepsAll(bits: seq<bool>, id: nat)
    requires id < |bits|
    ensures AllSet(bits) ==> AllSet(bits[id := true])
  {
  }

  lemma SubListsKept(table: seq<Cmd>, bits: seq<bool>, subs: map<nat, seq<string>>, id: nat, value: bool)
    requires id < |bits| && GoodSubLists(table, bits, subs)
    ensures GoodSubLists(table, bits[id := value], subs - {id})
  {
    hide IsCommandId, GoodSubs;
  }

  lemma FewerSubLists(table: seq<Cmd>, bits: seq<bool>, subs: map<nat, seq<string>>, id: nat)
    requires GoodSubLists(table, bits, subs)
    ensures GoodSubLists(table, bits, subs - {id})
  {
    hide IsCommandId, GoodSubs;
  }

  lemma {:induction false} SetCategoryKeeps(env: Env, u: UserState, c: nat, value: bool, n: nat)
    requires ValidEnv(env) && WellFormed(env, u) && n <= |env.table|
    ensures WellFormed(env, SetCategory(env.table, u, c, value, n))
  {
    hide ValidEnv, WellFormed, SetCommand;
    if n > 0 {
      SetCategoryKeeps(env, u, c, value, n - 1);
      SetCommandKeeps(env, SetCategory(env.table, u, c, value, n - 1), n - 1, value);
    }
  }

  lemma AddSubKeeps(env: Env, u: UserState, i: nat, sub: string)
    requires ValidEnv(env) && WellFormed(env, u) && i < |env.table| && sub != ""
    requires env.table[i].id < |u.bits| && !u.bits[env.table[i].id]
    ensures WellFormed(env, AddSub(u, env.table[i].id, sub))
  {
    hide ValidEnv, GoodPasswords, GoodPatterns, SpareBits, AllSet, GoodSubs, Listed;
    CommandIds(env, i);
    var list := SubsOf(u, env.table[i].id);
    if !Listed(list, sub) {
      OneMoreSub(list, sub);
    }
  }

  lemma OneMoreSub(list: seq<string>, sub: string)
    requires (list == [] || GoodSubs(list)) && !Listed(list, sub) && sub != ""
    ensures GoodSubs(list + [sub])
  {
  }

  lemma AddOnceKeeps(list: seq<string>, x: string)
    ensures Distinct(list) ==> Distinct(AddOnce(list, x))
    ensures forall y :: y in AddOnce(list, x) ==> y in list || y == x
  {
  }

  lemma PasswordRulesKeep(env: Env, u: UserState, rule: Rule)
    requires ValidEnv(env) && WellFormed(env, u)
    requires rule.AddPassword? || rule.AddHash? || rule.RemovePassword? || rule.RemoveHash?
    ensures Apply(env, u, rule).Accepted? ==> WellFormed(env, Apply(env, u, rule).user)
  {
    hide GoodCommands, GoodPatterns, IsHash, Distinct, AddOnce, RemoveFirst;
    match rule {
      case AddPassword(clear) => AddOnceKeeps(u.passwords, env.hash(clear));
      case AddHash(hash) => AddOnceKeeps(u.passwords, hash);
      case RemovePassword(clear) => RemoveFirstKeeps(u.passwords, env.hash(clear));
      case RemoveHash(hash) => RemoveFirstKeeps(u.passwords, hash);
    }
  }

  lemma KeyRuleKeeps(env: Env, u: UserState, p: string)
    requires WellFormed(env, u)
    ensures Apply(env, u, KeyPattern(p)).Accepted? ==> WellFormed(env, Apply(env, u, KeyPattern(p)).user)
  {
    hide GoodCommands, GoodPasswords, HasSpaces, Distinct, AddOnce;
    NoneIsGood();
    AddOnceKeeps(u.patterns, p);
  }

  lemma ChannelRuleKeeps(env: Env, u: UserState, p: string)
    requires WellFormed(env, u)
    ensures Apply(env, u, ChannelPattern(p)).Accepted? ==> WellFormed(env, Apply(env, u, ChannelPattern(p)).user)
  {
    hide GoodCommands, GoodPasswords, HasSpaces, Distinct, AddOnce;
    NoneIsGood();
    AddOnceKeeps(u.channels, p);
  }

  lemma NoneIsGood()
    ensures GoodPasswords([]) && GoodPatterns([])
  {
  }

  /**
   The table of subcommand lists has an entry for every bit of the bitmap. A rule stays
   inside it unless it names a subcommand of a command whose id lies past the end.
   */
  predicate Inside(env: Env, rule: Rule) {
    rule.AllowSub? && rule.sub != "" ==>
      var i := Lookup(env.table, rule.name);
      i >= 0 ==> env.table[i].id < USER_COMMAND_BITS_COUNT
  }

  /** An accepted rule keeps what every user looks like exactly if it stays inside the table of subcommands. */
  lemma ApplyKeeps(env: Env, u: UserState, rule: Rule)
    requires ValidEnv(env) && WellFormed(env, u)
    ensures Apply(env, u, rule).Accepted? ==> (WellFormed(env, Apply(env, u, rule).user) <==> Inside(env, rule))
  {
    hide ValidEnv, GoodFlags, GoodCommands;
    match rule {
      case Allow(name) =>
        if Lookup(env.table, name) >= 0 { SetCommandKeeps(env, u, Lookup(env.table, name), true); }
      case Deny(name) =>
        if Lookup(env.table, name) >= 0 { SetCommandKeeps(env, u, Lookup(env.table, name), false); }
      case AllowSub(name, sub) => AllowSubKeeps(env, u, name, sub);
      case Category(c, allow) => SetCategoryKeeps(env, u, c, allow, |env.table|);
      case AddPassword(_) => PasswordRulesKeep(env, u, rule);
      case AddHash(_) => PasswordRulesKeep(env, u, rule);
      case RemovePassword(_) => PasswordRulesKeep(env, u, rule);
      case RemoveHash(_) => PasswordRulesKeep(env, u, rule);
      case KeyPattern(p) => KeyRuleKeeps(env, u, p);
      case ChannelPattern(p) => ChannelRuleKeeps(env, u, p);
      case _ => FlagRulesKeep(env, u, rule);
    }
  }

  lemma AllowSubKeeps(env: Env, u: UserState, name: string, sub: string)
    requires ValidEnv(env) && WellFormed(env, u)
    ensures var rule := AllowSub(name, sub);
            Apply(env, u, rule).Accepted? ==> (WellFormed(env, Apply(env, u, rule).user) <==> Inside(env, rule))
  {
    hide GoodFlags, ValidEnv, SpareBits, GoodSubLists, AddSub, AllSet;
    var i := Lookup(env.table, name);
    if i >= 0 && sub != "" {
      CommandIds(env, i);
      if env.table[i].id >= USER_COMMAND_BITS_COUNT {
        PastTheEnd(env.table, u, env.table[i].id, sub);
      } else if !u.bits[env.table[i].id] {
        AddSubKeeps(env, u, i, sub);
      }
    }
  }

  /** There the entry it would fill is none of the table. */
  lemma PastTheEnd(table: seq<Cmd>, u: UserState, id: nat, sub: string)
    requires id >= |u.bits| && GoodSubLists(table, u.bits, u.subs)
    ensures !GoodSubLists(table, AddSub(u, id, sub).bits, AddSub(u, id, sub).subs)
  {
    hide IsCommandId, GoodSubs;
    assert id in AddSub(u, id, sub).subs;
  }

  lemma FlagRulesKeep(env: Env, u: UserState, rule: Rule)
    requires ValidEnv(env) && WellFormed(env, u)
    requires rule.Nothing? || rule.On? || rule.Off? || rule.SkipSanitize? || rule.Sanitize? || rule.ResetKeys?
             || rule.ResetChannels? || rule.AllCommands? || rule.NoCommands? || rule.NoPass? || rule.ResetPass?
             || rule.Reset? || rule.Unknown?
    ensures Apply(env, u, rule).Accepted? ==> WellFormed(env, Apply(env, u, rule).user)
  {
    hide GoodPasswords, GoodPatterns, IsCommandId, GoodSubs;
    NoneIsGood();
    assert SpareBits(env.table, AllBits(true), true) && SpareBits(env.table, AllBits(false), false);
  }

  /** Every user reached from a fresh one by accepted rules is well formed. */
  lemma {:induction false} ReachedIsWellFormed(env: Env, u: UserState, rules: seq<Rule>)
    requires ValidEnv(env) && WellFormed(env, u) && forall i :: 0 <= i < |rules| ==> Inside(env, rules[i])
    ensures Replay(env, u, rules).Accepted? ==> WellFormed(env, Replay(env, u, rules).user)
    decreases |rules|
  {
    hide ValidEnv, WellFormed, Apply, Inside;
    if rules != [] {
      var init := rules[..|rules| - 1];
      ReachedIsWellFormed(env, u, init);
      if Replay(env, u, init).Accepted? {
        ApplyKeeps(env, Replay(env, u, init).user, rules[|rules| - 1]);
      }
    }
  }

  /** The comment on ACLSetUser says that reset gives back a user as created; it leaves one more flag set. */
  lemma ResetIsNotFresh(env: Env, u: UserState)
    requires Apply(env, u, Reset).Accepted?
    ensures var v := Apply(env, u, Reset).user;
            v != Fresh(env) && v == Fresh(env).(sanitize := true)
  {
    assert AllBits(false) == SetAll(u, false).bits;
  }
}
