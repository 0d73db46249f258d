/**
 ACL users as the server keeps them, created by ACLCreateUser and changed in place by
 ACLSetUser, each proved against the rule semantics of AclRules.
 */
module AclUser {
  import opened Prelude
  import opened CommandBits
  import opened AclRules

  /** The rule reset is the same as the rules it runs, none of which can fail. */
  lemma ResetByRules(env: Env, u: UserState)
    ensures var r1 := Apply(env, u, ResetPass);
            r1.Accepted? &&
            var r2 := Apply(env, r1.user, ResetKeys);
            r2.Accepted? &&
            var r3 := Apply(env, r2.user, ResetChannels);
            r3.Accepted? &&
            var r4 := if env.allChannelsByDefault then Apply(env, r3.user, ChannelPattern("*")) else r3;
            r4.Accepted? &&
            var r5 := Apply(env, r4.user, Off);
            r5.Accepted? &&
            var r6 := Apply(env, r5.user, Sanitize);
            r6.Accepted? && Apply(env, r6.user, NoCommands) == Apply(env, u, Reset)
    ensures Apply(env, u, Reset).Accepted?
  {
    hide Apply, AllBits;
    ResetRules(env, u);
    var u1 := Apply(env, u, ResetPass).user;
    ResetRules(env, u1);
    var u2 := Apply(env, u1, ResetKeys).user;
    ResetRules(env, u2);
    var u3 := Apply(env, u2, ResetChannels).user;
    ResetRules(env, u3);
    var u4 := if env.allChannelsByDefault then Apply(env, u3, ChannelPattern("*")).user else u3;
    ResetRules(env, u4);
    var u5 := Apply(env, u4, Off).user;
    ResetRules(env, u5);
    ResetRules(env, Apply(env, u5, Sanitize).user);
  }

  lemma ResetRules(env: Env, u: UserState)
    ensures Apply(env, u, ResetPass) == Accepted(u.(noPass := false, passwords := []))
    ensures Apply(env, u, ResetKeys) == Accepted(u.(allKeys := false, patterns := []))
    ensures Apply(env, u, ResetChannels) == Accepted(u.(allChannels := false, channels := []))
    ensures Apply(env, u, ChannelPattern("*")) == Accepted(u.(allChannels := true, channels := []))
    ensures Apply(env, u, Off) == Accepted(u.(disabled := true, enabled := false))
    ensures Apply(env, u, Sanitize) == Accepted(u.(skipSanitize := false, sanitize := true))
    ensures Apply(env, u, NoCommands) == Accepted(SetAll(u, false))
    ensures Apply(env, u, Reset) == Accepted(ResetUser(env, u))
  {
    hide SetAll, ResetUser;
  }

  /** ACLCheckPasswordHash: 64 characters, each a digit or a letter from a to f. */
  method CheckPasswordHash(hash: string) returns (ok: bool)
    ensures ok == IsHash(hash)
    ensures ok <==>
              |hash| == 64 && forall i :: 0 <= i < |hash| ==> 48 <= hash[i] as int <= 57 || 97 <= hash[i] as int <= 102
  {
    if |hash| != HASH_PASSWORD_LEN { return false; }
    for i := 0 to |hash|
      invariant forall k :: 0 <= k < i ==> 48 <= hash[k] as int <= 57 || 97 <= hash[k] as int <= 102
    {
      var c := hash[i];
      if (c < 'a' || c > 'f') && (c < '0' || c > '9') { return false; }
    }
    ok := true;
  }

  /** ACLStringHasSpaces: some character is blank, a tab, one of the line breaks, or zero. */
  method StringHasSpaces(s: string) returns (found: bool)
    ensures found == HasSpaces(s)
    ensures found <==> exists i :: 0 <= i < |s| && (s[i] as int == 0 || s[i] as int == 32 || 9 <= s[i] as int <= 13)
  {
    for i := 0 to |s|
      invariant forall k :: 0 <= k < i ==> s[k] as int != 0 && s[k] as int != 32 && !(9 <= s[k] as int <= 13)
    {
      if s[i] == ' ' || 9 as char <= s[i] <= 13 as char || s[i] == '\0' { return true; }
    }
    found := false;
  }

  class User {
    var enabled: bool
    var disabled: bool
    var skipSanitize: bool
    var sanitize: bool
    var allKeys: bool
    var allChannels: bool
    var allCommands: bool
    var noPass: bool
    var passwords: seq<string>
    var patterns: seq<string>
    var channels: seq<string>
    const words: array<bv64>
    var subs: map<nat, seq<string>>

    ghost predicate Valid()
      reads this
    {
      words.Length == WORDS
    }

    ghost function View(): UserState
      requires Valid()
      reads this, words
    {
      UserState(enabled, disabled, skipSanitize, sanitize, allKeys, allChannels, allCommands, noPass,
                passwords, patterns, channels, Bits(words[..]), subs)
    }

    /** A user whose memory is all zero, as the fake users of the description start. */
    constructor Zeroed()
      ensures Valid() && fresh(words)
      ensures View() == UserState(false, false, false, false, false, false, false, false, [], [], [],
                                  AllBits(false), map[])
    {
      enabled, disabled, skipSanitize, sanitize := false, false, false, false;
      allKeys, allChannels, allCommands, noPass := false, false, false, false;
      passwords, patterns, channels, subs := [], [], [], map[];
      words := new bv64[WORDS](_ => 0);
      new;
      BitsOfAll(words[..], false);
      assert Bits(words[..]) == AllBits(false);
    }

    /** ACLCreateUser */
    constructor (env: Env)
      ensures Valid() && fresh(words)
      ensures View() == Fresh(env)
    {
      enabled, disabled, skipSanitize, sanitize := false, true, false, false;
      allKeys, allChannels, allCommands, noPass := false, env.allChannelsByDefault, false, false;
      passwords, patterns, channels, subs := [], [], [], map[];
      words := new bv64[WORDS](_ => 0);
      new;
      BitsOfAll(words[..], false);
      assert Bits(words[..]) == AllBits(false);
    }

    /** ACLGetUserCommandBit */
    method GetCommandBit(id: nat) returns (b: bool)
      requires Valid()
      ensures b == (id < USER_COMMAND_BITS_COUNT && View().bits[id])
    {
      hide And, Mask;
      if id >= USER_COMMAND_BITS_COUNT { return false; }
      b := And(words[id / 64], Mask(id % 64)) != 0;
      assert Bits(words[..])[id] == Get(words[..], id);
    }

    /** ACLSetUserCommandBit */
    method SetCommandBit(id: nat, value: bool)
      requires Valid()
      modifies this`allCommands, words
      ensures View() == SetBit(old(View()), id, value)
    {
      hide And, Or, Without, Mask, Bits;
      if id >= USER_COMMAND_BITS_COUNT { return; }
      BitsOfPut(words[..], id, value);
      ghost var before := words[..];
      var word, bit := id / 64, Mask(id % 64);
      if value {
        words[word] := Or(words[word], bit);
      } else {
        words[word] := Without(words[word], bit);
        allCommands := false;
      }
      assert words[..] == Put(before, id, value);
    }

    /** memset on the bitmap. */
    method SetEveryBit(value: bool)
      requires Valid()
      modifies words
      ensures View() == old(View()).(bits := AllBits(value))
    {
      hide Bits;
      for i := 0 to WORDS
        invariant forall j :: 0 <= j < i ==> words[j] == if value then 0xffffffffffffffff else 0
      {
        words[i] := if value then 0xffffffffffffffff else 0;
      }
      BitsOfAll(words[..], value);
      assert Bits(words[..]) == AllBits(value);
    }

    /** memcpy of the bitmap. */
    method CopyBits(from: User)
      requires Valid() && from.Valid() && words != from.words
      modifies words
      ensures View() == old(View()).(bits := from.View().bits)
    {
      for i := 0 to WORDS
        invariant forall j :: 0 <= j < i ==> words[j] == from.words[j]
      {
        words[i] := from.words[i];
      }
      assert words[..] == from.words[..];
    }

    /** memcmp of two bitmaps. */
    method SameBitmap(other: User) returns (same: bool)
      requires Valid() && other.Valid()
      ensures same == (View().bits == other.View().bits)
    {
      hide Bits;
      for i := 0 to WORDS
        invariant forall j :: 0 <= j < i ==> words[j] == other.words[j]
      {
        if words[i] != other.words[i] {
          assert words[..][i] != other.words[..][i];
          if View().bits == other.View().bits {
            BitsDecide(words[..], other.words[..]);
          }
          return false;
        }
      }
      assert words[..] == other.words[..];
      return true;
    }

    /** ACLResetSubcommandsForCommand */
    method ResetSubcommandsFor(id: nat)
      requires Valid()
      modifies this`subs
      ensures View() == old(View()).(subs := old(subs) - {id})
    {
      subs := subs - {id};
    }

    /** ACLAddAllowedSubcommand */
    method AddAllowedSubcommand(id: nat, sub: string)
      requires Valid()
      modifies this`subs
      ensures View() == AddSub(old(View()), id, sub)
    {
      hide Bits;
      var list := if id in subs then subs[id] else [];
      for items := 0 to |list|
        invariant forall i :: 0 <= i < items ==> Lower(list[i]) != Lower(sub)
      {
        if Lower(list[items]) == Lower(sub) {
          assert Listed(list, sub);
          return;
        }
      }
      assert !Listed(list, sub);
      subs := subs[id := list + [sub]];
    }

    /** ACLSetUserCommandBitsForCategory, for a category that exists. */
    method SetCommandBitsForCategory(env: Env, category: nat, value: bool)
      requires Valid()
      modifies this`allCommands, this`subs, words
      ensures View() == SetCategory(env.table, old(View()), category, value, |env.table|)
    {
      hide Bits, SetBit;
      for i := 0 to |env.table|
        invariant View() == SetCategory(env.table, old(View()), category, value, i)
      {
        var cmd := env.table[i];
        if cmd.fromModule { continue; }
        if category in cmd.categories {
          SetCommandBit(cmd.id, value);
          ResetSubcommandsFor(cmd.id);
        }
      }
    }

    /** ACLLookupCommand and ACLGetCommandID, for a command of the table. */
    method LookupCommand(env: Env, name: string) returns (i: int)
      ensures i == Lookup(env.table, name)
    {
      i := Lookup(env.table, name);
    }

    method AddPasswordHash(hash: string)
      requires Valid()
      modifies this`passwords, this`noPass
      ensures View() == AddHashed(old(View()), hash)
    {
      if hash !in passwords {
        passwords := passwords + [hash];
      }
      noPass := false;
    }

    method RemovePasswordHash(hash: string) returns (error: Option<Error>)
      requires Valid()
      modifies this`passwords
      ensures match RemoveHashed(old(View()), hash)
              case Accepted(v) => error == None && View() == v
              case Rejected(e) => error == Some(e) && View() == old(View())
    {
      if hash !in passwords { return Some(ENODEV); }
      passwords := RemoveFirst(passwords, hash);
      return None;
    }

    method SetAllCommands(value: bool)
      requires Valid()
      modifies this`allCommands, this`subs, words
      ensures View() == SetAll(old(View()), value)
    {
      SetEveryBit(value);
      allCommands := value;
      subs := map[];
    }

    /** What the caller sees of ACLSetUser: the new user, or the error and the user as it was. */
    ghost predicate Result(before: UserState, env: Env, rule: Rule, error: Option<Error>)
      requires Valid()
      reads this, words
    {
      match Apply(env, before, rule)
      case Accepted(v) => error == None && View() == v
      case Rejected(e) => error == Some(e) && View() == before
    }

    /** The rules on single commands. */
    method SetCommandRule(env: Env, rule: Rule) returns (error: Option<Error>)
      requires Valid() && (rule.Allow? || rule.AllowSub? || rule.Deny?)
      modifies this`allCommands, this`subs, words
      ensures Result(old(View()), env, rule, error)
    {
      hide Bits, SetBit, AddSub;
      var i := LookupCommand(env, rule.name);
      if i < 0 { return Some(ENOENT); }
      var id := env.table[i].id;
      match rule {
        case Allow(_) =>
          SetCommandBit(id, true);
          ResetSubcommandsFor(id);
        case Deny(_) =>
          SetCommandBit(id, false);
          ResetSubcommandsFor(id);
        case AllowSub(_, sub) =>
          if sub == "" { return Some(EINVAL); }
          var allowed := GetCommandBit(id);
          if !allowed {
            AddAllowedSubcommand(id, sub);
          }
      }
      return None;
    }

    /** The rules on passwords. */
    method SetPasswordRule(env: Env, rule: Rule) returns (error: Option<Error>)
      requires Valid()
      requires rule.NoPass? || rule.ResetPass? || rule.AddPassword? || rule.AddHash? || rule.RemovePassword?
               || rule.RemoveHash?
      modifies this`passwords, this`noPass
      ensures Result(old(View()), env, rule, error)
    {
      hide Bits, IsHash, RemoveFirst;
      match rule {
        case NoPass => noPass, passwords := true, [];
        case ResetPass => noPass, passwords := false, [];
        case AddPassword(clear) => AddPasswordHash(env.hash(clear));
        case AddHash(hash) =>
          var good := CheckPasswordHash(hash);
          if !good { return Some(EBADMSG); }
          AddPasswordHash(hash);
        case RemovePassword(clear) => error := RemovePasswordHash(env.hash(clear)); return;
        case RemoveHash(hash) =>
          var good := CheckPasswordHash(hash);
          if !good { return Some(EBADMSG); }
          error := RemovePasswordHash(hash);
          return;
      }
      return None;
    }

    /** The rules on key patterns. */
    method SetKeyRule(env: Env, rule: Rule) returns (error: Option<Error>)
      requires Valid() && (rule.ResetKeys? || rule.KeyPattern?)
      modifies this`patterns, this`allKeys
      ensures Result(old(View()), env, rule, error)
    {
      hide Bits, HasSpaces;
      match rule {
        case ResetKeys => allKeys, patterns := false, [];
        case KeyPattern(p) =>
          if p == "*" {
            allKeys, patterns := true, [];
          } else {
            if allKeys { return Some(EEXIST); }
            var spaced := StringHasSpaces(p);
            if spaced { return Some(EINVAL); }
            if p !in patterns {
              patterns := patterns + [p];
            }
          }
      }
      return None;
    }

    /** The rules on channel patterns. */
    method SetChannelRule(env: Env, rule: Rule) returns (error: Option<Error>)
      requires Valid() && (rule.ResetChannels? || rule.ChannelPattern?)
      modifies this`channels, this`allChannels
      ensures Result(old(View()), env, rule, error)
    {
      hide Bits, HasSpaces;
      match rule {
        case ResetChannels => allChannels, channels := false, [];
        case ChannelPattern(p) =>
          if p == "*" {
            allChannels, channels := true, [];
          } else {
            if allChannels { return Some(EISDIR); }
            var spaced := StringHasSpaces(p);
            if spaced { return Some(EINVAL); }
            if p !in channels {
              channels := channels + [p];
            }
          }
      }
      return None;
    }

    /** The rules that set a flag or the whole bitmap. */
    method SetFlagRule(env: Env, rule: Rule)
      requires Valid()
      requires rule.On? || rule.Off? || rule.SkipSanitize? || rule.Sanitize? || rule.AllCommands? || rule.NoCommands?
      modifies this, words
      ensures Result(old(View()), env, rule, None)
    {
      hide Bits, AllBits;
      match rule {
        case On => enabled, disabled := true, false;
        case Off => disabled, enabled := true, false;
        case SkipSanitize => skipSanitize, sanitize := true, false;
        case Sanitize => skipSanitize, sanitize := false, true;
        case AllCommands => SetAllCommands(true);
        case NoCommands => SetAllCommands(false);
      }
    }

    /** The rule reset, by the rules it stands for. */
    method ResetAll(env: Env)
      requires Valid()
      modifies this, words
      ensures Result(old(View()), env, Reset, None)
    {
      hide Apply, View;
      ghost var u := View();
      ResetByRules(env, u);
      var _ := SetPasswordRule(env, ResetPass);
      var _ := SetKeyRule(env, ResetKeys);
      var _ := SetChannelRule(env, ResetChannels);
      if env.allChannelsByDefault {
        var _ := SetChannelRule(env, ChannelPattern("*"));
      }
      SetFlagRule(env, Off);
      SetFlagRule(env, Sanitize);
      SetFlagRule(env, NoCommands);
    }

    /** ACLSetUser */
    method SetUser(env: Env, rule: Rule) returns (error: Option<Error>)
      requires Valid()
      modifies this, words
      ensures Result(old(View()), env, rule, error)
    {
      hide Bits, SetCategory, SetBit, AddSub, AllBits, AddHashed, RemoveHashed, ResetUser, Lookup;
      error := None;
      match rule {
        case Nothing =>
        case NoPass => error := SetPasswordRule(env, rule);
        case ResetPass => error := SetPasswordRule(env, rule);
        case AddPassword(_) => error := SetPasswordRule(env, rule);
        case AddHash(_) => error := SetPasswordRule(env, rule);
        case RemovePassword(_) => error := SetPasswordRule(env, rule);
        case RemoveHash(_) => error := SetPasswordRule(env, rule);
        case ResetKeys => error := SetKeyRule(env, rule);
        case ResetChannels => error := SetChannelRule(env, rule);
        case KeyPattern(_) => error := SetKeyRule(env, rule);
        case ChannelPattern(_) => error := SetChannelRule(env, rule);
        case Allow(_) => error := SetCommandRule(env, rule);
        case AllowSub(_, _) => error := SetCommandRule(env, rule);
        case Deny(_) => error := SetCommandRule(env, rule);
        case Category(c, allow) =>
          if c >= CATEGORY_COUNT { return Some(ENOENT); }
          SetCommandBitsForCategory(env, c, allow);
        case Reset => ResetAll(env);
        case Unknown => error := Some(EINVAL);
        case _ => SetFlagRule(env, rule);
      }
    }
  }
}
