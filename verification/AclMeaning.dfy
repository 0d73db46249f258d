/**
 What the rules of ACL SETUSER mean for a user: which passwords let the user in, which
 commands, keys and channels the user may use. These permissions are what
 ACLCheckUserCredentials and ACLCheckCommandPerm decide on; each rule is described by the
 permissions it grants and takes, and by what it leaves alone.
 */
module AclMeaning {
  import opened Prelude
  import opened CommandBits
  import opened AclRules
  import opened AclUser

  // ----- permissions

  /** The password lets the user in. */
  predicate LogsIn(env: Env, u: UserState, password: string) {
    !u.disabled && (u.noPass || env.hash(password) in u.passwords)
  }

  /** The user may run the command, called with a first argument or without one. */
  predicate MayRun(u: UserState, id: nat, sub: Option<string>) {
    Permits(u.allCommands, u.bits, u.subs, id, sub)
  }

  predicate Permits(all: bool, bits: seq<bool>, subs: map<nat, seq<string>>, id: nat, sub: Option<string>) {
    all || (id < |bits| && bits[id]) || (sub.Some? && id in subs && Holds(subs[id], sub.value))
  }

  /** The subcommand is on the list, in any letter case. */
  predicate Holds(list: seq<string>, sub: string) {
    exists i :: 0 <= i < |list| && Lower(list[i]) == Lower(sub)
  }

  type Match = (string, string) -> bool

  /** The pattern list, or the flag beside it, admits the name. */
  predicate Admits(all: bool, patterns: seq<string>, name: string, matches: Match) {
    all || exists i :: 0 <= i < |patterns| && matches(patterns[i], name)
  }

  predicate MayTouch(u: UserState, key: string, matches: Match) {
    Admits(u.allKeys, u.patterns, key, matches)
  }

  predicate MayListen(u: UserState, channel: string, matches: Match) {
    Admits(u.allChannels, u.channels, channel, matches)
  }

  // ----- the checks of the program

  /** ACLCheckUserCredentials, for a user that exists. */
  method CheckUserCredentials(env: Env, u: User, password: string) returns (ok: bool)
    requires u.Valid()
    ensures ok == LogsIn(env, u.View(), password)
  {
    hide Bits;
    if u.disabled { return false; }
    if u.noPass { return true; }
    var hashed := env.hash(password);
    for i := 0 to |u.passwords|
      invariant forall k :: 0 <= k < i ==> u.passwords[k] != hashed
    {
      if hashed == u.passwords[i] { return true; }
    }
    return false;
  }

  datatype Verdict = Allowed | DeniedCommand | DeniedKey(index: nat)

  /** The loops over the keys of a command and the patterns of the user. */
  method CheckKeys(u: User, keys: seq<string>, matches: Match) returns (v: Verdict)
    requires u.Valid()
    ensures v.Allowed? <==> forall i :: 0 <= i < |keys| ==> MayTouch(u.View(), keys[i], matches)
    ensures !v.DeniedCommand?
    ensures v.DeniedKey? ==>
              && v.index < |keys| && !MayTouch(u.View(), keys[v.index], matches)
              && forall i :: 0 <= i < v.index ==> MayTouch(u.View(), keys[i], matches)
  {
    hide Bits;
    if u.allKeys { return Allowed; }
    for j := 0 to |keys|
      invariant forall i :: 0 <= i < j ==> MayTouch(u.View(), keys[i], matches)
    {
      var found := false;
      for k := 0 to |u.patterns|
        invariant !found && forall i :: 0 <= i < k ==> !matches(u.patterns[i], keys[j])
      {
        if matches(u.patterns[k], keys[j]) {
          found := true;
          break;
        }
      }
      if !found {
        assert !MayTouch(u.View(), keys[j], matches);
        return DeniedKey(j);
      }
    }
    return Allowed;
  }

  /** Whether a subcommand is on the list of a command, in any letter case. */
  method ListsSubcommand(list: seq<string>, sub: string) returns (found: bool)
    ensures found <==> Holds(list, sub)
  {
    hide Lower;
    for i := 0 to |list|
      invariant forall k :: 0 <= k < i ==> Lower(list[k]) != Lower(sub)
    {
      if Lower(list[i]) == Lower(sub) { return true; }
    }
    return false;
  }

  /** ACLCheckCommandPerm; noAuth: the command needs no permission; keys: those it names. */
  method CheckCommandPerm(u: User, id: nat, noAuth: bool, sub: Option<string>, keys: seq<string>, matches: Match)
    returns (v: Verdict)
    requires u.Valid()
    ensures v.DeniedCommand? <==> !noAuth && !MayRun(u.View(), id, sub)
    ensures v.Allowed? <==>
              && (noAuth || MayRun(u.View(), id, sub))
              && forall i :: 0 <= i < |keys| ==> MayTouch(u.View(), keys[i], matches)
    ensures v.DeniedKey? ==>
              && v.index < |keys| && !MayTouch(u.View(), keys[v.index], matches)
              && forall i :: 0 <= i < v.index ==> MayTouch(u.View(), keys[i], matches)
  {
    hide Bits, Lower, Admits;
    if !u.allCommands && !noAuth {
      var bit := u.GetCommandBit(id);
      if !bit {
        if sub == None || id !in u.subs { return DeniedCommand; }
        var found := ListsSubcommand(u.subs[id], sub.value);
        if !found { return DeniedCommand; }
      }
    }
    v := CheckKeys(u, keys, matches);
  }

  // ----- passwords

  /** Nothing but how the user logs in has changed. */
  predicate OnlyLoginDiffers(u: UserState, v: UserState) {
    v == u.(enabled := v.enabled, disabled := v.disabled, noPass := v.noPass, passwords := v.passwords)
  }

  /** The list without one of its entries, the others in their order. */
  ghost predicate Removed(old_: seq<string>, new_: seq<string>, x: string) {
    exists i :: 0 <= i < |old_| && old_[i] == x && new_ == old_[..i] + old_[i + 1..]
  }

  lemma {:induction false} RemovedAt(list: seq<string>, x: string) returns (i: nat)
    requires x in list
    ensures i < |list| && list[i] == x && RemoveFirst(list, x) == list[..i] + list[i + 1..]
  {
    if list[0] == x {
      i := 0;
    } else {
      var k := RemovedAt(list[1..], x);
      i := k + 1;
      RemovedLater(list, k);
    }
  }

  lemma RemovedLater(list: seq<string>, k: nat)
    requires list != [] && k < |list[1..]|
    ensures [list[0]] + (list[1..][..k] + list[1..][k + 1..]) == list[..k + 1] + list[k + 2..]
    ensures list[1..][k] == list[k + 1]
  {
  }

  lemma RemoveFirstRemoves(list: seq<string>, x: string)
    requires x in list
    ensures Removed(list, RemoveFirst(list, x), x)
  {
    hide RemoveFirst;
    var i := RemovedAt(list, x);
  }

  lemma CutMembers(list: seq<string>, i: nat, y: string)
    requires i < |list| && Distinct(list)
    ensures y in list[..i] + list[i + 1..] <==> y in list && y != list[i]
  {
    var rest := list[..i] + list[i + 1..];
    if y in rest {
      var k :| 0 <= k < |rest| && rest[k] == y;
      assert y == list[if k < i then k else k + 1];
    }
    if y in list && y != list[i] {
      var k :| 0 <= k < |list| && list[k] == y;
      assert y == rest[if k < i then k else k - 1];
    }
  }

  lemma RemovedMembers(old_: seq<string>, new_: seq<string>, x: string)
    requires Removed(old_, new_, x) && Distinct(old_)
    ensures forall y :: y in new_ <==> y in old_ && y != x
  {
    hide Distinct;
    var i :| 0 <= i < |old_| && old_[i] == x && new_ == old_[..i] + old_[i + 1..];
    forall y
      ensures y in new_ <==> y in old_ && y != x
    {
      CutMembers(old_, i, y);
    }
  }

  /** The hash a rule is about. */
  function HashOf(env: Env, rule: Rule): string
    requires rule.AddPassword? || rule.AddHash? || rule.RemovePassword? || rule.RemoveHash?
  {
    match rule
    case AddPassword(clear) => env.hash(clear)
    case AddHash(hash) => hash
    case RemovePassword(clear) => env.hash(clear)
    case RemoveHash(hash) => hash
  }

  /**
   Removing a password: it is refused if the hash is malformed or not the user's. Otherwise
   that hash and no other leaves the list, and a password that had it no longer lets the user
   in, unless the user needs none; every other password works as before.
   */
  lemma RemovingPassword(env: Env, u: UserState, rule: Rule)
    requires (rule.RemovePassword? || rule.RemoveHash?) && GoodPasswords(u.passwords)
    ensures var h := HashOf(env, rule);
            match Apply(env, u, rule)
            case Rejected(e) =>
              if rule.RemoveHash? && !IsHash(h) then e == EBADMSG else e == ENODEV && h !in u.passwords
            case Accepted(v) =>
              && (rule.RemoveHash? ==> IsHash(h))
              && Removed(u.passwords, v.passwords, h) && h !in v.passwords
              && v == u.(passwords := v.passwords)
              && forall p :: LogsIn(env, v, p) <==> LogsIn(env, u, p) && (u.noPass || env.hash(p) != h)
  {
    hide RemoveFirst, IsHash;
    var h := HashOf(env, rule);
    if h in u.passwords {
      RemoveFirstRemoves(u.passwords, h);
      RemovedMembers(u.passwords, RemoveFirst(u.passwords, h), h);
    }
  }

  /** Adding a password: it lets the user in, the others still do, and a password is now needed. */
  lemma AddingPassword(env: Env, u: UserState, rule: Rule)
    requires rule.AddPassword? || rule.AddHash?
    ensures var h := HashOf(env, rule);
            match Apply(env, u, rule)
            case Rejected(e) => rule.AddHash? && !IsHash(h) && e == EBADMSG
            case Accepted(v) =>
              && (rule.AddHash? ==> IsHash(h))
              && v == u.(passwords := v.passwords, noPass := false)
              && u.passwords <= v.passwords && |v.passwords| <= |u.passwords| + 1
              && forall p :: LogsIn(env, v, p) <==> !u.disabled && (env.hash(p) == h || env.hash(p) in u.passwords)
  {
    hide IsHash;
  }

  /** The rules without an operand that are about logging in. */
  lemma LoginRules(env: Env, u: UserState, password: string)
    ensures var on, off, noPass, reset :=
                Apply(env, u, On), Apply(env, u, Off), Apply(env, u, NoPass), Apply(env, u, ResetPass);
            && on.Accepted? && off.Accepted? && noPass.Accepted? && reset.Accepted?
            && OnlyLoginDiffers(u, on.user) && OnlyLoginDiffers(u, off.user)
            && OnlyLoginDiffers(u, noPass.user) && OnlyLoginDiffers(u, reset.user)
            && (LogsIn(env, on.user, password) <==> u.noPass || env.hash(password) in u.passwords)
            && !LogsIn(env, off.user, password)
            && (LogsIn(env, noPass.user, password) <==> !u.disabled)
            && !LogsIn(env, reset.user, password)
            && Apply(env, off.user, On) == Apply(env, u, On)
  {
  }

  // ----- commands

  /** Nothing but what the user may run has changed. */
  predicate OnlyCommandsDiffer(u: UserState, v: UserState) {
    v == u.(bits := v.bits, allCommands := v.allCommands, subs := v.subs)
  }

  /** A command with a bit of its own: past the bitmap only a user with all commands may run anything. */
  predicate HasBit(id: nat) {
    id < USER_COMMAND_BITS_COUNT
  }

  /** The name of a command that exists, in any letter case, and its id. */
  ghost predicate Names(env: Env, name: string, id: nat) {
    exists i :: 0 <= i < |env.table| && env.table[i].name == Lower(name) && env.table[i].id == id
  }

  lemma LookupFinds(env: Env, name: string)
    requires ValidEnv(env)
    ensures var i := Lookup(env.table, name);
            if i < 0 then forall id :: !Names(env, name, id)
            else Names(env, name, env.table[i].id) && forall id :: Names(env, name, id) ==> id == env.table[i].id
  {
    hide Lower, Lookup;
  }

  /** What a rule makes of the permission for one command, and that it leaves the others alone. */
  ghost predicate Decides(u: UserState, v: UserState, id: nat, allow: bool) {
    && OnlyCommandsDiffer(u, v)
    && (HasBit(id) ==> forall sub :: MayRun(v, id, sub) <==> allow)
    && (forall k, sub :: k != id && HasBit(k) ==> (MayRun(v, k, sub) <==> MayRun(u, k, sub)))
  }

  lemma SettingOne(all: bool, bits: seq<bool>, subs: map<nat, seq<string>>, id: nat, allow: bool, k: nat,
                   sub: Option<string>)
    requires |bits| == USER_COMMAND_BITS_COUNT && (all ==> AllSet(bits)) && HasBit(k)
    ensures Permits(if HasBit(id) then all && allow else all, if HasBit(id) then bits[id := allow] else bits,
                    subs - {id}, k, sub)
       <==> if k == id then allow else Permits(all, bits, subs, k, sub)
  {
    hide Holds;
    if all {
      assert bits[k];
    }
  }

  lemma SetCommandFields(u: UserState, id: nat, allow: bool)
    requires |u.bits| == USER_COMMAND_BITS_COUNT
    ensures var v := SetCommand(u, id, allow);
            && v.allCommands == (if HasBit(id) then u.allCommands && allow else u.allCommands)
            && v.bits == (if HasBit(id) then u.bits[id := allow] else u.bits)
            && v.subs == u.subs - {id} && OnlyCommandsDiffer(u, v)
  {
    hide OnlyCommandsDiffer;
    SetCommandKeepsRest(u, id, allow);
  }

  lemma SetCommandKeepsRest(u: UserState, id: nat, allow: bool)
    ensures OnlyCommandsDiffer(u, SetCommand(u, id, allow))
  {
    if id < |u.bits| {
      var all, bits, subs := u.allCommands && allow, u.bits[id := allow], u.subs - {id};
      assert SetCommand(u, id, allow) == u.(bits := bits, allCommands := all, subs := subs);
    } else {
      assert SetCommand(u, id, allow) == u.(subs := u.subs - {id});
    }
  }

  lemma BitmapSize(env: Env, u: UserState)
    requires WellFormed(env, u)
    ensures |u.bits| == USER_COMMAND_BITS_COUNT && (u.allCommands ==> AllSet(u.bits))
  {
    hide GoodFlags, SpareBits, GoodSubLists, AllSet;
  }

  lemma SettingDecides(env: Env, u: UserState, id: nat, allow: bool)
    requires WellFormed(env, u)
    ensures Decides(u, SetCommand(u, id, allow), id, allow)
  {
    hide WellFormed, Permits, AllSet, SetCommand, OnlyCommandsDiffer;
    BitmapSize(env, u);
    SetCommandFields(u, id, allow);
    forall k: nat, sub | HasBit(k)
      ensures MayRun(SetCommand(u, id, allow), k, sub) <==> if k == id then allow else MayRun(u, k, sub)
    {
      SettingOne(u.allCommands, u.bits, u.subs, id, allow, k, sub);
    }
  }

  /**
   +name and -name: refused if there is no such command. Otherwise the command may, or may
   not, be run, with any subcommand, and the permission for every other one is as it was.
   */
  lemma CommandRules(env: Env, u: UserState, name: string, allow: bool)
    requires ValidEnv(env) && WellFormed(env, u)
    ensures match Apply(env, u, if allow then Allow(name) else Deny(name))
            case Rejected(e) => e == ENOENT && forall id :: !Names(env, name, id)
            case Accepted(v) => exists id :: Names(env, name, id) && Decides(u, v, id, allow)
  {
    hide WellFormed, Lookup, SetCommand, Names, Decides;
    LookupFinds(env, name);
    var i := Lookup(env.table, name);
    if i >= 0 {
      SettingDecides(env, u, env.table[i].id, allow);
    }
  }

  /**
   +name|sub: refused if there is no such command or the subcommand is empty. Otherwise the
   command may be run with this subcommand, in any letter case, and nothing else changes.
   */
  lemma SubcommandRule(env: Env, u: UserState, name: string, sub: string)
    requires ValidEnv(env) && WellFormed(env, u)
    ensures match Apply(env, u, AllowSub(name, sub))
            case Rejected(e) =>
              if forall id :: !Names(env, name, id) then e == ENOENT else e == EINVAL && sub == ""
            case Accepted(v) =>
              sub != "" && exists id :: Names(env, name, id) && AddsSub(u, v, id, sub)
  {
    hide WellFormed, Lookup, Names, AddsSub, AddSub, Lower;
    LookupFinds(env, name);
    var i := Lookup(env.table, name);
    if i >= 0 && sub != "" {
      AddingSub(env, u, env.table[i].id, sub);
    }
  }

  ghost predicate AddsSub(u: UserState, v: UserState, id: nat, sub: string) {
    && v == u.(subs := v.subs)
    && (forall k, t :: MayRun(v, k, t) <==>
          MayRun(u, k, t) || (k == id && t.Some? && Lower(t.value) == Lower(sub)))
  }

  lemma HoldsMore(list: seq<string>, sub: string, t: string)
    ensures Holds(list + [sub], t) <==> Holds(list, t) || Lower(t) == Lower(sub)
  {
    hide Lower;
    var more := list + [sub];
    assert more[|list|] == sub && forall i :: 0 <= i < |list| ==> more[i] == list[i];
  }

  lemma AddingSub(env: Env, u: UserState, id: nat, sub: string)
    requires WellFormed(env, u)
    ensures AddsSub(u, if id < |u.bits| && u.bits[id] then u else AddSub(u, id, sub), id, sub)
  {
    hide WellFormed, Lower, MayRun, Listed, AddSub;
    AddSubFields(u, id, sub);
    var v := if id < |u.bits| && u.bits[id] then u else AddSub(u, id, sub);
    forall k, t
      ensures MayRun(v, k, t) <==> MayRun(u, k, t) || (k == id && t.Some? && Lower(t.value) == Lower(sub))
    {
      SubAdded(u, v, id, sub, k, t);
    }
  }

  lemma SubAdded(u: UserState, v: UserState, id: nat, sub: string, k: nat, t: Option<string>)
    requires v == if id < |u.bits| && u.bits[id] then u else AddSub(u, id, sub)
    ensures MayRun(v, k, t) <==> MayRun(u, k, t) || (k == id && t.Some? && Lower(t.value) == Lower(sub))
  {
    hide Lower, Holds, Listed, AddSub;
    AddSubFields(u, id, sub);
    if k == id && t.Some? {
      var list := SubsOf(u, id);
      HoldsMore(list, sub, t.value);
      ListedHolds(list, sub, t.value);
    }
  }

  lemma AddSubFields(u: UserState, id: nat, sub: string)
    ensures var v := AddSub(u, id, sub);
            && v == u.(subs := v.subs)
            && v.subs == if Listed(SubsOf(u, id), sub) then u.subs else u.subs[id := SubsOf(u, id) + [sub]]
  {
    hide Listed;
  }

  lemma ListedHolds(list: seq<string>, sub: string, t: string)
    ensures Listed(list, sub) <==> Holds(list, sub)
    ensures Lower(t) == Lower(sub) ==> (Holds(list, t) <==> Holds(list, sub))
    ensures list == [] ==> !Holds(list, t)
  {
    hide Lower;
  }

  /** The commands a category rule is about: those of the table, but not of modules. */
  ghost predicate InCategory(env: Env, c: nat, id: nat) {
    InCategoryUpTo(env, c, id, |env.table|)
  }

  ghost predicate InCategoryUpTo(env: Env, c: nat, id: nat, n: nat)
    requires n <= |env.table|
  {
    exists i :: 0 <= i < n && !env.table[i].fromModule && c in env.table[i].categories && env.table[i].id == id
  }

  lemma {:induction false} CategoryDecides(env: Env, u: UserState, c: nat, allow: bool, n: nat)
    requires ValidEnv(env) && WellFormed(env, u) && n <= |env.table|
    ensures var v := SetCategory(env.table, u, c, allow, n);
            && WellFormed(env, v) && OnlyCommandsDiffer(u, v)
            && (forall id, sub :: HasBit(id) ==>
                  (MayRun(v, id, sub) <==> if InCategoryUpTo(env, c, id, n) then allow else MayRun(u, id, sub)))
  {
    hide ValidEnv, WellFormed, MayRun, SetCommand;
    if n > 0 {
      CategoryDecides(env, u, c, allow, n - 1);
      var w, cmd := SetCategory(env.table, u, c, allow, n - 1), env.table[n - 1];
      SetCategoryKeeps(env, u, c, allow, n);
      SettingDecides(env, w, cmd.id, allow);
      forall id
        ensures InCategoryUpTo(env, c, id, n) <==>
                  InCategoryUpTo(env, c, id, n - 1)
                  || (!cmd.fromModule && c in cmd.categories && cmd.id == id)
      {
      }
    }
  }

  /** +@category and -@category: exactly the commands of the category may, or may not, be run. */
  lemma CategoryRules(env: Env, u: UserState, c: nat, allow: bool)
    requires ValidEnv(env) && WellFormed(env, u)
    ensures match Apply(env, u, Category(c, allow))
            case Rejected(e) => e == ENOENT && c >= CATEGORY_COUNT
            case Accepted(v) =>
              && c < CATEGORY_COUNT && OnlyCommandsDiffer(u, v)
              && (forall id, sub :: HasBit(id) ==>
                    (MayRun(v, id, sub) <==> if InCategory(env, c, id) then allow else MayRun(u, id, sub)))
  {
    hide ValidEnv, WellFormed, MayRun, SetCategory;
    CategoryDecides(env, u, c, allow, |env.table|);
  }

  /** allcommands and nocommands. */
  lemma AllCommandRules(env: Env, u: UserState, id: nat, sub: Option<string>)
    ensures var all, none := Apply(env, u, AllCommands), Apply(env, u, NoCommands);
            && all.Accepted? && OnlyCommandsDiffer(u, all.user) && MayRun(all.user, id, sub)
            && none.Accepted? && OnlyCommandsDiffer(u, none.user) && !MayRun(none.user, id, sub)
  {
  }

  /** A user with all commands may also run those past the bitmap, until one command is denied. */
  lemma PastTheBitmap(env: Env, u: UserState, name: string, id: nat, sub: Option<string>)
    requires ValidEnv(env) && WellFormed(env, u) && !HasBit(id)
    ensures MayRun(u, id, sub) <==> u.allCommands
    ensures Apply(env, u, Deny(name)).Accepted? ==>
              var v := Apply(env, u, Deny(name)).user;
              MayRun(v, id, sub) <==> u.allCommands && forall k :: Names(env, name, k) ==> !HasBit(k)
  {
    hide GoodFlags, SpareBits, AllSet, Lookup, Lower, SetCommand, Names, Holds, IsCommandId, GoodSubs,
         OnlyCommandsDiffer, ValidEnv;
    LookupFinds(env, name);
    assert id !in u.subs;
    var i := Lookup(env.table, name);
    if i >= 0 {
      SetCommandFields(u, env.table[i].id, false);
    }
  }

  // ----- keys and channels

  /** The rules for key patterns, and when they are refused. */
  lemma KeyRules(env: Env, u: UserState, p: string, key: string, matches: Match)
    ensures match Apply(env, u, KeyPattern(p))
            case Rejected(e) => p != "*" && if u.allKeys then e == EEXIST else HasSpaces(p) && e == EINVAL
            case Accepted(v) =>
              && v == u.(allKeys := v.allKeys, patterns := v.patterns)
              && (p == "*" || (!u.allKeys && !HasSpaces(p)))
              && (MayTouch(v, key, matches) <==> p == "*" || MayTouch(u, key, matches) || matches(p, key))
    ensures var reset := Apply(env, u, ResetKeys);
            && reset.Accepted? && !MayTouch(reset.user, key, matches)
            && reset.user == u.(allKeys := reset.user.allKeys, patterns := reset.user.patterns)
  {
    hide HasSpaces, Lookup, SetCategory, AddSub, SetAll, ResetUser;
    AddingAdmits(u.patterns, p, key, matches);
  }

  /** The rules for channel patterns, and when they are refused. */
  lemma ChannelRules(env: Env, u: UserState, p: string, channel: string, matches: Match)
    ensures match Apply(env, u, ChannelPattern(p))
            case Rejected(e) => p != "*" && if u.allChannels then e == EISDIR else HasSpaces(p) && e == EINVAL
            case Accepted(v) =>
              && v == u.(allChannels := v.allChannels, channels := v.channels)
              && (p == "*" || (!u.allChannels && !HasSpaces(p)))
              && (MayListen(v, channel, matches) <==> p == "*" || MayListen(u, channel, matches) || matches(p, channel))
    ensures var reset := Apply(env, u, ResetChannels);
            && reset.Accepted? && !MayListen(reset.user, channel, matches)
            && reset.user == u.(allChannels := reset.user.allChannels, channels := reset.user.channels)
  {
    hide HasSpaces, Lookup, SetCategory, AddSub, SetAll, ResetUser;
    AddingAdmits(u.channels, p, channel, matches);
  }

  /** The two rules about payloads exclude each other, an empty rule changes nothing, an unknown one is refused. */
  lemma OtherRules(env: Env, u: UserState)
    ensures var skip, check := Apply(env, u, SkipSanitize), Apply(env, u, Sanitize);
            && skip.Accepted? && skip.user.skipSanitize && !skip.user.sanitize
            && check.Accepted? && check.user.sanitize && !check.user.skipSanitize
            && skip.user.(skipSanitize := false, sanitize := true) == check.user
            && check.user == u.(skipSanitize := check.user.skipSanitize, sanitize := check.user.sanitize)
    ensures Apply(env, u, Nothing) == Accepted(u) && Apply(env, u, Unknown) == Rejected(EINVAL)
  {
  }

  lemma AddingAdmits(list: seq<string>, p: string, name: string, matches: Match)
    ensures Admits(false, AddOnce(list, p), name, matches) <==> Admits(false, list, name, matches) || matches(p, name)
  {
    var more := AddOnce(list, p);
    if p in list {
      var i :| 0 <= i < |list| && list[i] == p;
    } else {
      assert more[|list|] == p && forall i :: 0 <= i < |list| ==> more[i] == list[i];
    }
  }
}
