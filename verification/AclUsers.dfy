/** The user object that rules change in place, and the loops that print it. */
module AclUsers {
  import opened Sequences
  import opened Wrappers
  import opened Acl
  import opened AclDescribe
  import opened AclMeaning

  /** Command IDs, handed out in order and kept for good. */
  class CommandIds {
    var ids: map<string, nat>
    var nextId: nat

    ghost predicate Valid() reads this {
      && nextId == |ids| + (if |ids| < FUTURE then 0 else 1)
      && (forall a | a in ids :: ids[a] < nextId && ids[a] != FUTURE)
      && (forall a, b | a in ids && b in ids && a != b :: ids[a] != ids[b])
    }

    constructor ()
      ensures Valid() && ids == map[]
    {
      ids, nextId := map[], 0;
    }

    /** A name keeps its ID, whatever its case; a new name gets one no other name has, never the
        reserved bit, and one inside the bitmap while fewer than FUTURE names are known. */
    method GetCommandID(name: string) returns (id: nat)
      requires Valid()
      modifies this
      ensures Valid() && id != FUTURE && (|ids| <= FUTURE ==> id < FUTURE)
      ensures ids == old(ids)[Lower(name) := id]
      ensures Lower(name) in old(ids) ==> id == old(ids)[Lower(name)]
      ensures Lower(name) !in old(ids) ==> forall a | a in old(ids) :: old(ids)[a] != id
    {
      var lower := Lower(name);
      if lower in ids { return ids[lower]; }
      id := nextId;
      ids := ids[lower := id];
      nextId := nextId + 1;
      if nextId == FUTURE { nextId := nextId + 1; }
    }
  }

  /** A user as the server keeps and changes it. */
  class AclUser {
    var enabled: bool
    var disabled: bool
    var allKeys: bool
    var allCommands: bool
    var noPass: bool
    var passwords: seq<string>
    var patterns: seq<string>
    var bits: seq<bool>
    var subs: seq<seq<string>>

    function State(): User reads this {
      User(enabled, disabled, allKeys, allCommands, noPass, passwords, patterns, bits, subs)
    }

    constructor (u: User)
      ensures State() == u
    {
      enabled, disabled, allKeys, allCommands, noPass := u.enabled, u.disabled, u.allKeys, u.allCommands, u.noPass;
      passwords, patterns, bits, subs := u.passwords, u.patterns, u.bits, u.subs;
    }

    method SetCommandBit(id: nat, value: bool)
      requires Sized(State())
      modifies this
      ensures State() == SetBit(old(State()), id, value)
    {
      if id >= BITS { return; }
      if value {
        bits := bits[id := true];
      } else {
        bits := bits[id := false];
        allCommands := false;
      }
    }

    method ResetSubcommandsForCommand(id: nat)
      requires Sized(State()) && id < BITS
      modifies this
      ensures State() == old(State()).(subs := old(subs)[id := []])
    {
      if subs[id] != [] { subs := subs[id := []]; }
    }

    method SetCommandBitsForCategory(t: Table, name: string, value: bool) returns (ok: bool)
      requires Sized(State()) && GoodTable(t)
      modifies this
      ensures var c := Find(t.cats, name, 0);
              ok == c.Some? && State() == if ok then SetCategory(t, old(State()), c.value, value, 0) else old(State())
    {
      hide GoodTable, Same, SetBit;
      var c := Find(t.cats, name, 0);
      if c.None? { return false; }
      var i := 0;
      while i < |t.cmds|
        invariant 0 <= i <= |t.cmds| && Sized(State())
        invariant SetCategory(t, State(), c.value, value, i) == SetCategory(t, old(State()), c.value, value, 0)
      {
        var cmd := t.cmds[i];
        SmallId(t, i);
        if InCategory(cmd, c.value) {
          SetCommandBit(cmd.id, value);
          ResetSubcommandsForCommand(cmd.id);
        }
        i := i + 1;
      }
      ok := true;
    }

    method CountCategoryBits(t: Table, c: nat) returns (on: nat, off: nat)
      requires Sized(State()) && GoodTable(t)
      ensures on == Count(t, bits, c, true, 0) && off == Count(t, bits, c, false, 0)
    {
      hide GoodTable;
      on, off := 0, 0;
      var i := 0;
      while i < |t.cmds|
        invariant 0 <= i <= |t.cmds|
        invariant on + Count(t, bits, c, true, i) == Count(t, bits, c, true, 0)
        invariant off + Count(t, bits, c, false, i) == Count(t, bits, c, false, 0)
      {
        SmallId(t, i);
        if c in t.cmds[i].cats {
          if bits[t.cmds[i].id] { on := on + 1; } else { off := off + 1; }
        }
        i := i + 1;
      }
    }

    method AddAllowedSubcommand(id: nat, sub: string)
      requires Sized(State()) && id < BITS
      modifies this
      ensures State() == old(State()).(subs := old(subs)[id := AddSub(old(subs)[id], sub)])
    {
      hide Same;
      var items := 0;
      while items < |subs[id]|
        invariant 0 <= items <= |subs[id]| && State() == old(State())
        invariant Find(subs[id], sub, items) == Find(subs[id], sub, 0)
      {
        if Same(subs[id][items], sub) { return; }
        items := items + 1;
      }
      subs := subs[id := subs[id] + [sub]];
    }

    method SetAllCommands(value: bool)
      modifies this
      ensures State() == SetAll(old(State()), value)
    {
      bits, allCommands, subs := AllBits(value), value, NoSubs();
    }

    method SetCommands(t: Table, rule: Rule) returns (error: Option<Error>)
      requires Sized(State()) && GoodTable(t) && (rule.Allow? || rule.Deny? || rule.AllowSub? || rule.Category?)
      modifies this
      ensures var r := Apply(t, old(State()), rule);
              && error == (if r.Success? then None else Some(r.error))
              && State() == if r.Success? then r.value else old(State())
    {
      hide GoodTable, Same, Find, SetCategory, SetAll, AddSub;
      if rule.Category? {
        if Same(rule.name, "all") {
          SetAllCommands(rule.add);
          return None;
        }
        var ok := SetCommandBitsForCategory(t, rule.name, rule.add);
        return if ok then None else Some(ENOENT);
      }
      var k := Find(Names(t), rule.name, 0);
      if k.None? { return Some(ENOENT); }
      var id := t.cmds[k.value].id;
      SmallId(t, k.value);
      if rule.AllowSub? {
        if rule.sub == "" { return Some(EINVAL); }
        if bits[id] { return Some(EBUSY); }
        AddAllowedSubcommand(id, rule.sub);
        SetCommandBit(id, false);
      } else {
        SetCommandBit(id, rule.Allow?);
        ResetSubcommandsForCommand(id);
      }
      return None;
    }

    method AddPasswordHash(h: string)
      modifies this
      ensures Success(State()) == ApplyPassword(old(State()), h, true)
    {
      if h !in passwords { passwords := passwords + [h]; }
      noPass := false;
    }

    method RemovePasswordHash(h: string) returns (error: Option<Error>)
      modifies this
      ensures var r := ApplyPassword(old(State()), h, false);
              && error == (if r.Success? then None else Some(r.error))
              && State() == if r.Success? then r.value else old(State())
    {
      if h !in passwords { return Some(ENODEV); }
      passwords := Without(passwords, h);
      return None;
    }

    method AddPattern(p: string) returns (error: Option<Error>)
      modifies this
      ensures var r := ApplyPattern(old(State()), p);
              && error == (if r.Success? then None else Some(r.error))
              && State() == if r.Success? then r.value else old(State())
    {
      if p == "*" {
        allKeys, patterns := true, [];
        return None;
      }
      if allKeys { return Some(EEXIST); }
      if HasSpaces(p) { return Some(EINVAL); }
      if p !in patterns { patterns := patterns + [p]; }
      allKeys := false;
      return None;
    }

    method SetPasswords(t: Table, rule: Rule) returns (error: Option<Error>)
      requires Sized(State())
      requires rule.AddPassword? || rule.AddHash? || rule.RemovePassword? || rule.RemoveHash?
      modifies this
      ensures var r := ApplyList(t, old(State()), rule);
              && error == (if r.Success? then None else Some(r.error))
              && State() == if r.Success? then r.value else old(State())
    {
      hide ApplyPassword, ValidHash;
      error := None;
      if rule.AddPassword? {
        AddPasswordHash(t.hash(rule.text));
      } else if rule.RemovePassword? {
        error := RemovePasswordHash(t.hash(rule.text));
      } else if !ValidHash(rule.text) {
        error := Some(EBADMSG);
      } else if rule.AddHash? {
        AddPasswordHash(rule.text);
      } else {
        error := RemovePasswordHash(rule.text);
      }
    }

    /** ACLSetUser: the user after one rule, or the error and the user as it was. */
    method SetUser(t: Table, rule: Rule) returns (error: Option<Error>)
      requires Sized(State()) && GoodTable(t)
      modifies this
      ensures var r := Apply(t, old(State()), rule);
              && error == (if r.Success? then None else Some(r.error))
              && State() == if r.Success? then r.value else old(State())
    {
      hide GoodTable, Same, Find, SetAll, ApplyCommand, ApplySub, ApplyCategory, ApplyPassword, ApplyPattern, ValidHash;
      error := None;
      match rule {
        case Empty =>
        case On => enabled, disabled := true, false;
        case Off => disabled, enabled := true, false;
        case AllKeys => allKeys, patterns := true, [];
        case ResetKeys => allKeys, patterns := false, [];
        case AllCommands => SetAllCommands(true);
        case NoCommands => SetAllCommands(false);
        case NoPass => noPass, passwords := true, [];
        case ResetPass => noPass, passwords := false, [];
        case Reset =>
          noPass, passwords := false, [];
          allKeys, patterns := false, [];
          disabled, enabled := true, false;
          SetAllCommands(false);
        case AddPassword(_) => error := SetPasswords(t, rule);
        case AddHash(_) => error := SetPasswords(t, rule);
        case RemovePassword(_) => error := SetPasswords(t, rule);
        case RemoveHash(_) => error := SetPasswords(t, rule);
        case Pattern(p) => error := AddPattern(p);
        case Other => error := Some(EINVAL);
        case _ => error := SetCommands(t, rule);
      }
    }

    /** Whether the user may log in: the loop over its passwords. */
    method CheckUserCredentials(t: Table, password: string) returns (ok: bool)
      ensures ok <==> Accepts(t, State(), password)
    {
      if disabled { return false; }
      if noPass { return true; }
      var hashed, j := t.hash(password), 0;
      while j < |passwords|
        invariant 0 <= j <= |passwords| && hashed !in passwords[..j]
      {
        if hashed == passwords[j] { return true; }
        j := j + 1;
      }
      return false;
    }

    /** The loop over the subcommands a command is allowed with. */
    method CheckSubcommand(id: nat, args: seq<string>) returns (ok: bool)
      requires id < |subs|
      ensures ok <==> args != [] && exists k | 0 <= k < |subs[id]| :: Same(subs[id][k], args[0])
    {
      hide Same;
      if args == [] { return false; }
      var k := 0;
      while k < |subs[id]|
        invariant 0 <= k <= |subs[id]| && forall j | 0 <= j < k :: !Same(subs[id][j], args[0])
      {
        if Same(subs[id][k], args[0]) { return true; }
        k := k + 1;
      }
      return false;
    }

    /** The loop over the patterns, for one key. */
    method CheckKey(glob: (string, string) -> bool, key: string) returns (ok: bool)
      ensures ok <==> exists p | p in patterns :: glob(p, key)
    {
      var k := 0;
      while k < |patterns|
        invariant 0 <= k <= |patterns| && forall j | 0 <= j < k :: !glob(patterns[j], key)
      {
        if glob(patterns[k], key) { return true; }
        k := k + 1;
      }
      return false;
    }

    /** Whether the user may run command i with these arguments, which name these keys; the first key
        it may not touch is reported. */
    method CheckCommandPerm(t: Table, i: nat, isAuth: bool, args: seq<string>, keys: seq<string>,
                            glob: (string, string) -> bool) returns (r: Permission)
      requires Sized(State()) && GoodTable(t) && i < |t.cmds|
      ensures r.DeniedCommand? <==> !Permits(t, State(), i, isAuth, args)
      ensures r.Permitted? ==> forall key | key in keys :: MayTouch(State(), glob, key)
      ensures r.DeniedKey? ==>
                && r.at < |keys| && !MayTouch(State(), glob, keys[r.at])
                && forall j | 0 <= j < r.at :: MayTouch(State(), glob, keys[j])
    {
      hide GoodTable, Same;
      SmallId(t, i);
      var id := t.cmds[i].id;
      if !allCommands && !isAuth && !bits[id] {
        var ok := CheckSubcommand(id, args);
        if !ok { return DeniedCommand; }
      }
      if allKeys { return Permitted; }
      var j := 0;
      while j < |keys|
        invariant 0 <= j <= |keys| && forall k | 0 <= k < j :: MayTouch(State(), glob, keys[k])
      {
        var ok := CheckKey(glob, keys[j]);
        if !ok { return DeniedKey(j); }
        j := j + 1;
      }
      return Permitted;
    }

    /** One pass over the categories for the best fit not applied yet. */
    method BestCategory(t: Table, add: bool, applied: set<nat>) returns (best: Option<nat>)
      requires Sized(State()) && GoodTable(t)
      ensures best == Best(t, add, bits, applied, |t.cats|)
    {
      hide GoodTable, Count;
      best := None;
      var mindiff, maxsame := INT_MAX, 0;
      var j := 0;
      while j < |t.cats|
        invariant 0 <= j <= |t.cats| && best == Best(t, add, bits, applied, j)
        invariant if best.None? then mindiff == INT_MAX && maxsame == 0
                  else mindiff == Count(t, bits, best.value, !add, 0) && maxsame == Count(t, bits, best.value, add, 0)
      {
        if j !in applied {
          var on, off := CountCategoryBits(t, j);
          var diff := if add then off else on;
          var same := if add then on else off;
          if same > diff && (diff < mindiff || (diff == mindiff && same > maxsame)) {
            best, mindiff, maxsame := Some(j), diff, same;
          }
        }
        j := j + 1;
      }
    }

    /** Give a category to the fake user, and take it away from what is left to explain. */
    static method GiveCategory(t: Table, add: bool, c: nat, fake: AclUser, temp: AclUser)
      requires GoodTable(t) && c < |t.cats| && fake != temp && Sized(fake.State()) && Sized(temp.State())
      modifies fake, temp
      ensures fake.State() == SetCategory(t, old(fake.State()), c, add, 0)
      ensures temp.State() == SetCategory(t, old(temp.State()), c, !add, 0)
    {
      hide GoodTable, SetCategory, Find, Same;
      FindCategory(t, c);
      var done := fake.SetUser(t, Category(add, t.cats[c]));
      done := temp.SetUser(t, Category(!add, t.cats[c]));
    }

    /** The first part of ACLDescribeUserCommandRules: start from all or nothing, then apply
        categories to a fake user as long as one fits. */
    method DescribeCategories(t: Table, add: bool, fake: AclUser) returns (rules: seq<Rule>)
      requires Sized(State()) && GoodTable(t) && add == !bits[FUTURE] && fake != this && fake.State() == ZERO_USER
      modifies fake
      ensures var chosen := Greedy(t, add, ZERO_USER.(bits := bits), {});
              && fake.State() == WithCategories(t, SetAll(ZERO_USER, !add), chosen, add)
              && rules == [Category(!add, "all")] + CategoryRules(t, chosen, add)
    {
      hide GoodTable, Best, SetCategory, SetAll, Find, Same, WithCategories, CategoryRules, Greedy;
      AllIsAll();
      var error := fake.SetUser(t, Category(!add, "all"));
      var temp := new AclUser(ZERO_USER.(bits := bits));
      rules := [Category(!add, "all")];
      var applied: set<nat> := {};
      ghost var start := temp.State();
      ghost var chosen: seq<nat> := [];
      NoCategories(t, SetAll(ZERO_USER, !add), add);
      var best := temp.BestCategory(t, add, applied);
      while best.Some?
        invariant Sized(temp.State()) && best == Best(t, add, temp.bits, applied, |t.cats|)
        invariant Greedy(t, add, start, {}) == chosen + Greedy(t, add, temp.State(), applied)
        invariant forall i | 0 <= i < |chosen| :: chosen[i] < |t.cats|
        invariant fake.State() == WithCategories(t, SetAll(ZERO_USER, !add), chosen, add)
        invariant rules == [Category(!add, "all")] + CategoryRules(t, chosen, add)
        decreases UpTo(|t.cats|) - applied
      {
        var c := best.value;
        OneMoreCategory(t, SetAll(ZERO_USER, !add), chosen, c, add);
        GreedyStep(t, add, start, chosen, temp.State(), applied);
        assert c in UpTo(|t.cats|) - applied;
        GiveCategory(t, add, c, fake, temp);
        rules, applied := rules + [Category(add, t.cats[c])], applied + {c};
        chosen := chosen + [c];
        best := temp.BestCategory(t, add, applied);
      }
      GreedyEnd(t, add, temp.State(), applied);
      assert chosen + [] == chosen;
    }

    /** One command of the second part: correct its bit, then list its subcommands. */
    method FixCommand(cmd: Cmd, fake: AclUser) returns (rules: seq<Rule>)
      requires Sized(State()) && Sized(fake.State()) && cmd.id < BITS && fake != this
      modifies fake
      ensures rules == Fix(cmd, State(), old(fake.bits)[cmd.id])
      ensures Sized(fake.State()) && fake.bits == old(fake.bits)[cmd.id := bits[cmd.id]]
    {
      rules := [];
      var userbit, fakebit := bits[cmd.id], fake.bits[cmd.id];
      if userbit != fakebit {
        rules := [if userbit then Allow(cmd.name) else Deny(cmd.name)];
        fake.SetCommandBit(cmd.id, userbit);
      }
      ghost var first := rules;
      if !userbit {
        var j := 0;
        while j < |subs[cmd.id]|
          invariant 0 <= j <= |subs[cmd.id]| && rules == first + SubRules(cmd.name, subs[cmd.id])[..j]
          invariant Sized(fake.State()) && fake.bits == old(fake.bits)[cmd.id := bits[cmd.id]]
        {
          rules := rules + [AllowSub(cmd.name, subs[cmd.id][j])];
          j := j + 1;
        }
        assert SubRules(cmd.name, subs[cmd.id])[..j] == SubRules(cmd.name, subs[cmd.id]);
      }
    }

    /** None is the panic when the fake user's bitmap does not match; it never happens. */
    method DescribeUserCommandRules(t: Table) returns (r: Option<seq<Rule>>)
      requires GoodTable(t) && Good(t, State())
      ensures r == Some(CommandRules(t, State()))
    {
      hide GoodTable, GoodBit, GoodLists, Greedy, WithCategories, CategoryRules, Fix, SetAll, IsIdBefore;
      var add := !bits[FUTURE];
      var fake := new AclUser(ZERO_USER);
      var rules := DescribeCategories(t, add, fake);
      ghost var before := fake.bits;
      var i := 0;
      forall k: nat | k < BITS ensures !IsIdBefore(t, 0, k) { NoneBefore(t, k); }
      while i < |t.cmds|
        invariant 0 <= i <= |t.cmds| && Sized(fake.State())
        invariant rules + Fixes(t, State(), before, i) == CommandRules(t, State())
        invariant forall k: nat | k < BITS :: fake.bits[k] == if IsIdBefore(t, i, k) then bits[k] else before[k]
      {
        var cmd := t.cmds[i];
        SmallId(t, i);
        forall k: nat | k < BITS ensures IsIdBefore(t, i + 1, k) == (IsIdBefore(t, i, k) || k == cmd.id) {
          OneMoreId(t, i, k);
        }
        FirstUse(t, i);
        var one := FixCommand(cmd, fake);
        assert rules + (one + Fixes(t, State(), before, i + 1)) == rules + one + Fixes(t, State(), before, i + 1);
        rules := rules + one;
        i := i + 1;
      }
      assert rules + [] == rules;
      forall k: nat | k < BITS ensures fake.bits[k] == bits[k] { FakeOutside(t, State(), k); }
      assert fake.bits == bits;
      if fake.bits != bits { return None; }
      return Some(rules);
    }

    method DescribeUser(t: Table) returns (r: Option<seq<Rule>>)
      requires GoodTable(t) && Good(t, State())
      ensures r == Some(Describe(t, State()))
    {
      hide GoodTable, GoodBit, CommandRules;
      var rules := [];
      if enabled { rules := rules + [On]; }
      if disabled { rules := rules + [Off]; }
      if noPass { rules := rules + [NoPass]; }
      assert rules == FlagRules(State());
      var i := 0;
      while i < |passwords|
        invariant 0 <= i <= |passwords| && rules == FlagRules(State()) + PasswordRules(passwords)[..i]
      {
        rules := rules + [AddHash(passwords[i])];
        i := i + 1;
      }
      assert PasswordRules(passwords)[..i] == PasswordRules(passwords);
      if allKeys {
        rules := rules + [Pattern("*")];
      } else {
        i := 0;
        while i < |patterns|
          invariant 0 <= i <= |patterns|
          invariant rules == FlagRules(State()) + PasswordRules(passwords) + PatternRules(patterns)[..i]
        {
          rules := rules + [Pattern(patterns[i])];
          i := i + 1;
        }
        assert PatternRules(patterns)[..i] == PatternRules(patterns);
      }
      var commands := DescribeUserCommandRules(t);
      if commands.None? { return None; }
      return Some(rules + commands.value);
    }
  }

  lemma AllIsAll()
    ensures Same("all", "all")
  {
  }

  lemma NoCategories(t: Table, v: User, add: bool)
    requires GoodTable(t) && Sized(v)
    ensures WithCategories(t, v, [], add) == v && CategoryRules(t, [], add) == []
  {
  }

  lemma {:induction false} OneMoreCategory(t: Table, v: User, chosen: seq<nat>, c: nat, add: bool)
    requires GoodTable(t) && Sized(v) && c < |t.cats| && forall i | 0 <= i < |chosen| :: chosen[i] < |t.cats|
    ensures WithCategories(t, v, chosen + [c], add) == SetCategory(t, WithCategories(t, v, chosen, add), c, add, 0)
    ensures CategoryRules(t, chosen + [c], add) == CategoryRules(t, chosen, add) + [Category(add, t.cats[c])]
    decreases |chosen|
  {
    hide GoodTable, SetCategory;
    if chosen == [] {
      assert [] + [c] == [c] && [c][1..] == [];
      NoCategories(t, SetCategory(t, v, c, add, 0), add);
    } else {
      assert (chosen + [c])[1..] == chosen[1..] + [c];
      OneMoreCategory(t, SetCategory(t, v, chosen[0], add, 0), chosen[1..], c, add);
    }
  }

  lemma GreedyStep(t: Table, add: bool, start: User, chosen: seq<nat>, v: User, applied: set<nat>)
    requires GoodTable(t) && Sized(start) && Sized(v) && Best(t, add, v.bits, applied, |t.cats|).Some?
    requires Greedy(t, add, start, {}) == chosen + Greedy(t, add, v, applied)
    ensures var c := Best(t, add, v.bits, applied, |t.cats|).value;
            Greedy(t, add, start, {}) == chosen + [c] + Greedy(t, add, SetCategory(t, v, c, !add, 0), applied + {c})
  {
    hide GoodTable, Best, SetCategory;
    var c := Best(t, add, v.bits, applied, |t.cats|).value;
    var rest := Greedy(t, add, SetCategory(t, v, c, !add, 0), applied + {c});
    assert chosen + ([c] + rest) == chosen + [c] + rest;
  }

  lemma GreedyEnd(t: Table, add: bool, v: User, applied: set<nat>)
    requires GoodTable(t) && Sized(v) && Best(t, add, v.bits, applied, |t.cats|).None?
    ensures Greedy(t, add, v, applied) == []
  {
    hide GoodTable, Best;
  }

  predicate IsIdBefore(t: Table, i: nat, k: nat) {
    exists j | 0 <= j < i && j < |t.cmds| :: t.cmds[j].id == k
  }

  lemma NoneBefore(t: Table, k: nat)
    ensures !IsIdBefore(t, 0, k)
  {
  }

  lemma OneMoreId(t: Table, i: nat, k: nat)
    requires i < |t.cmds|
    ensures IsIdBefore(t, i + 1, k) == (IsIdBefore(t, i, k) || k == t.cmds[i].id)
  {
  }

  lemma FirstUse(t: Table, i: nat)
    requires GoodTable(t) && i < |t.cmds|
    ensures !IsIdBefore(t, i, t.cmds[i].id)
  {
    hide Different;
  }

  /** Bits that belong to no command are right from the start. */
  lemma FakeOutside(t: Table, u: User, k: nat)
    requires GoodTable(t) && GoodCommands(t, u) && k < BITS
    ensures IsIdBefore(t, |t.cmds|, k) == IsId(t, k)
    ensures var add := !u.bits[FUTURE];
            var fake := WithCategories(t, SetAll(ZERO_USER, !add), Greedy(t, add, ZERO_USER.(bits := u.bits), {}), add);
            !IsId(t, k) ==> fake.bits[k] == u.bits[k]
  {
    hide GoodTable, Greedy, WithCategories;
    var add := !u.bits[FUTURE];
    CategoriesKeep(t, SetAll(ZERO_USER, !add), Greedy(t, add, ZERO_USER.(bits := u.bits), {}), add, k);
    assert GoodBit(t, u, k);
  }
}
