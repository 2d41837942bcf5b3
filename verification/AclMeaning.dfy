/** What the rules of a user mean: which commands it may run, which keys it may touch and with which
    passwords it may log in, told from the history of its rules. The last rule that speaks of
    something decides it. */
module AclMeaning {
  import opened Sequences
  import opened Wrappers
  import opened Acl

  /** Something that is or is not so of a user. */
  datatype Fact =
    | MayRun(i: nat)                    // command i of the table, whatever its arguments
    | MayRunSub(i: nat, sub: string)    // command i with this first argument
    | MayRunLater                       // commands that are loaded later
    | HasHash(hash: string)
    | NeedsNoPassword
    | HasPattern(pattern: string)
    | MayTouchAllKeys
    | IsEnabled
    | IsDisabled

  predicate About(t: Table, f: Fact) {
    f.MayRun? || f.MayRunSub? ==> f.i < |t.cmds|
  }

  predicate Holds(t: Table, u: User, f: Fact)
    requires Sized(u) && GoodTable(t) && About(t, f)
  {
    match f
    case MayRun(i) => u.bits[t.cmds[i].id]
    case MayRunSub(i, sub) => exists k | 0 <= k < |u.subs[t.cmds[i].id]| :: Same(u.subs[t.cmds[i].id][k], sub)
    case MayRunLater => u.bits[FUTURE]
    case HasHash(h) => h in u.passwords
    case NeedsNoPassword => u.noPass
    case HasPattern(p) => p in u.patterns
    case MayTouchAllKeys => u.allKeys
    case IsEnabled => u.enabled
    case IsDisabled => u.disabled
  }

  /** Command i is one of those the category names; "all" is every command. */
  predicate InNamed(t: Table, i: nat, name: string)
    requires i < |t.cmds|
  {
    Same(name, "all") ||
    (!t.cmds[i].isModule && exists c | 0 <= c < |t.cats| :: c in t.cmds[i].cats && Same(t.cats[c], name))
  }

  /** What a rule says of command i as a whole, if anything. */
  function SaysOfCommand(t: Table, rule: Rule, i: nat): Option<bool>
    requires i < |t.cmds|
  {
    match rule
    case AllCommands => Some(true)
    case NoCommands => Some(false)
    case Reset => Some(false)
    case Allow(name) => if Same(t.cmds[i].name, name) then Some(true) else None
    case Deny(name) => if Same(t.cmds[i].name, name) then Some(false) else None
    case Category(add, name) => if InNamed(t, i, name) then Some(add) else None
    case _ => None
  }

  /** What a rule says of a fact, if anything. */
  function Says(t: Table, rule: Rule, f: Fact): Option<bool>
    requires About(t, f)
  {
    match f
    case MayRun(i) =>
      if rule.AllowSub? && Same(t.cmds[i].name, rule.name) then Some(false) else SaysOfCommand(t, rule, i)
    case MayRunSub(i, sub) =>
      if rule.AllowSub? then (if Same(t.cmds[i].name, rule.name) && Same(rule.sub, sub) then Some(true) else None)
      else if SaysOfCommand(t, rule, i).Some? then Some(false) else None
    case MayRunLater =>
      if rule.AllCommands? then Some(true)
      else if rule.NoCommands? || rule.Reset? then Some(false)
      else if rule.Category? && Same(rule.name, "all") then Some(rule.add) else None
    case HasHash(h) =>
      if rule.AddPassword? || rule.RemovePassword? then
        (if t.hash(rule.text) == h then Some(rule.AddPassword?) else None)
      else if rule.AddHash? || rule.RemoveHash? then (if rule.text == h then Some(rule.AddHash?) else None)
      else if rule.NoPass? || rule.ResetPass? || rule.Reset? then Some(false) else None
    case NeedsNoPassword =>
      if rule.NoPass? then Some(true)
      else if rule.ResetPass? || rule.Reset? || rule.AddPassword? || rule.AddHash? then Some(false) else None
    case HasPattern(p) =>
      if rule.Pattern? && rule.text != "*" then (if rule.text == p then Some(true) else None)
      else if rule.Pattern? || rule.AllKeys? || rule.ResetKeys? || rule.Reset? then Some(false) else None
    case MayTouchAllKeys =>
      if rule.AllKeys? || (rule.Pattern? && rule.text == "*") then Some(true)
      else if rule.ResetKeys? || rule.Reset? then Some(false) else None
    case IsEnabled => if rule.On? then Some(true) else if rule.Off? || rule.Reset? then Some(false) else None
    case IsDisabled => if rule.On? then Some(false) else if rule.Off? || rule.Reset? then Some(true) else None
  }

  function Or(o: Option<bool>, b: bool): bool {
    if o.Some? then o.value else b
  }

  // ---------------------------------------------------------------- categories

  lemma {:induction false} CategoryMisses(t: Table, u: User, c: nat, value: bool, n: nat, k: nat)
    requires GoodTable(t) && Sized(u) && n <= |t.cmds| && k < BITS
    requires forall i | n <= i < |t.cmds| && t.cmds[i].id == k :: !InCategory(t.cmds[i], c)
    ensures var v := SetCategory(t, u, c, value, n);
            v.bits[k] == u.bits[k] && v.subs[k] == u.subs[k]
    decreases |t.cmds| - n
  {
    hide Different, Same, InCategory;
    if n < |t.cmds| {
      var cmd := t.cmds[n];
      CategoryMisses(t, if InCategory(cmd, c) then SetCommand(u, cmd.id, value) else u, c, value, n + 1, k);
    }
  }

  lemma {:induction false} CategoryHits(t: Table, u: User, c: nat, value: bool, n: nat, i: nat)
    requires GoodTable(t) && Sized(u) && n <= i < |t.cmds| && InCategory(t.cmds[i], c)
    ensures var v := SetCategory(t, u, c, value, n);
            v.bits[t.cmds[i].id] == value && v.subs[t.cmds[i].id] == []
    decreases |t.cmds| - n
  {
    hide Different, Same;
    var cmd := t.cmds[n];
    if n < i {
      CategoryHits(t, if InCategory(cmd, c) then SetCommand(u, cmd.id, value) else u, c, value, n + 1, i);
    } else {
      CategoryMisses(t, SetCommand(u, cmd.id, value), c, value, n + 1, cmd.id);
    }
  }

  /** A category rule changes its commands, and nothing else. */
  lemma CategoryMeans(t: Table, u: User, c: nat, value: bool, k: nat)
    requires GoodTable(t) && Sized(u) && k < BITS
    ensures var v := SetCategory(t, u, c, value, 0);
            if exists i | 0 <= i < |t.cmds| :: t.cmds[i].id == k && InCategory(t.cmds[i], c)
            then v.bits[k] == value && v.subs[k] == []
            else v.bits[k] == u.bits[k] && v.subs[k] == u.subs[k]
  {
    hide GoodTable, InCategory, SetCategory;
    if i :| 0 <= i < |t.cmds| && t.cmds[i].id == k && InCategory(t.cmds[i], c) {
      CategoryHits(t, u, c, value, 0, i);
    } else {
      CategoryMisses(t, u, c, value, 0, k);
    }
  }

  lemma CategoryOf(t: Table, u: User, name: string, add: bool, i: nat)
    requires GoodTable(t) && Sized(u) && i < |t.cmds| && ApplyCategory(t, u, name, add).Success?
    ensures var v, id := ApplyCategory(t, u, name, add).value, t.cmds[i].id;
            if InNamed(t, i, name) then v.bits[id] == add && v.subs[id] == []
            else v.bits[id] == u.bits[id] && v.subs[id] == u.subs[id]
  {
    hide Lower, Names;
    if !Same(name, "all") {
      var c := Find(t.cats, name, 0).value;
      CategoryMeans(t, u, c, add, t.cmds[i].id);
      forall d | 0 <= d < |t.cats| ensures Same(t.cats[d], name) <==> d == c { OneName(t.cats, name, c, d); }
    }
  }

  lemma OneName(names: seq<string>, name: string, c: nat, d: nat)
    requires Different(names) && c < |names| && d < |names| && Same(names[c], name)
    ensures Same(names[d], name) <==> d == c
  {
    hide Lower;
  }

  // ------------------------------------------------------------------ one rule

  lemma CommandOf(t: Table, name: string, i: nat)
    requires GoodTable(t) && i < |t.cmds| && Find(Names(t), name, 0).Some?
    ensures var k := Find(Names(t), name, 0).value;
            && k < |t.cmds| && (k == i <==> Same(t.cmds[i].name, name))
            && (k == i <==> t.cmds[k].id == t.cmds[i].id)
  {
    hide Lower;
    var k := Find(Names(t), name, 0).value;
    OneName(Names(t), name, k, i);
  }

  predicate AboutCommands(rule: Rule) {
    rule.AllCommands? || rule.NoCommands? || rule.Allow? || rule.Deny? || rule.AllowSub? || rule.Category?
  }

  /** A rule is about commands, resets the user, or leaves the commands alone. */
  lemma Families(t: Table, u: User, rule: Rule)
    requires GoodTable(t) && Sized(u) && Apply(t, u, rule).Success?
    ensures AboutCommands(rule) ==> SameLists(u, Apply(t, u, rule).value)
    ensures rule.Reset? ==> Apply(t, u, rule).value == ApplyReset(u)
    ensures !AboutCommands(rule) && !rule.Reset? ==>
              && Apply(t, u, rule) == ApplyList(t, u, rule) && SameCommands(u, Apply(t, u, rule).value)
  {
    hide GoodTable, SetBit, SetCategory, Find, Same, AddSub, AddTo, Without, ValidHash, HasSpaces;
  }

  lemma AllowRule(t: Table, u: User, name: string, value: bool, i: nat)
    requires GoodTable(t) && Sized(u) && i < |t.cmds| && ApplyCommand(t, u, name, value).Success?
    ensures var v, id := ApplyCommand(t, u, name, value).value, t.cmds[i].id;
            if Same(t.cmds[i].name, name) then v.bits[id] == value && v.subs[id] == []
            else v.bits[id] == u.bits[id] && v.subs[id] == u.subs[id]
  {
    hide Find, Same, Different, Names;
    CommandOf(t, name, i);
  }

  lemma AllowSubRule(t: Table, u: User, name: string, sub: string, i: nat)
    requires GoodTable(t) && Sized(u) && i < |t.cmds| && ApplySub(t, u, name, sub).Success?
    ensures var v, id := ApplySub(t, u, name, sub).value, t.cmds[i].id;
            if Same(t.cmds[i].name, name) then !v.bits[id] && v.subs[id] == AddSub(u.subs[id], sub)
            else v.bits[id] == u.bits[id] && v.subs[id] == u.subs[id]
  {
    hide Find, Same, Different, Names, AddSub;
    CommandOf(t, name, i);
  }

  lemma CommandRule(t: Table, u: User, rule: Rule, i: nat)
    requires GoodTable(t) && Sized(u) && i < |t.cmds| && Apply(t, u, rule).Success?
    ensures var v, id := Apply(t, u, rule).value, t.cmds[i].id;
            && v.bits[id] == Or(Says(t, rule, MayRun(i)), u.bits[id])
            && v.subs[id] == if SaysOfCommand(t, rule, i).Some? then []
                             else if rule.AllowSub? && Same(t.cmds[i].name, rule.name) then AddSub(u.subs[id], rule.sub)
                             else u.subs[id]
  {
    hide GoodTable, Same, InNamed, AddSub, ApplyCommand, ApplySub, ApplyCategory, ApplyList;
    SmallId(t, i);
    Families(t, u, rule);
    match rule
    case Allow(name) => AllowRule(t, u, name, true, i);
    case Deny(name) => AllowRule(t, u, name, false, i);
    case AllowSub(name, sub) => AllowSubRule(t, u, name, sub, i);
    case Category(add, name) => CategoryOf(t, u, name, add, i);
    case _ =>
  }

  lemma AddSubMeans(subs: seq<string>, sub: string, s: string)
    ensures (exists k | 0 <= k < |AddSub(subs, sub)| :: Same(AddSub(subs, sub)[k], s)) <==>
            Same(sub, s) || exists k | 0 <= k < |subs| :: Same(subs[k], s)
  {
    hide Lower;
    var r := AddSub(subs, sub);
    if Same(sub, s) {
      if r == subs { assert Same(r[Find(subs, sub, 0).value], s); } else { assert Same(r[|subs|], s); }
    }
    if k :| 0 <= k < |subs| && Same(subs[k], s) { assert r[k] == subs[k]; }
    if k :| 0 <= k < |r| && Same(r[k], s) { assert k < |subs| ==> subs[k] == r[k]; }
  }

  lemma SubRule(t: Table, u: User, rule: Rule, i: nat, sub: string)
    requires GoodTable(t) && Sized(u) && i < |t.cmds| && Apply(t, u, rule).Success?
    ensures Holds(t, Apply(t, u, rule).value, MayRunSub(i, sub)) ==
            Or(Says(t, rule, MayRunSub(i, sub)), Holds(t, u, MayRunSub(i, sub)))
  {
    hide Lower, Same, InNamed, AddSub, GoodTable, Apply;
    CommandRule(t, u, rule, i);
    SmallId(t, i);
    if rule.AllowSub? { AddSubMeans(u.subs[t.cmds[i].id], rule.sub, sub); }
  }

  lemma LaterRule(t: Table, u: User, rule: Rule)
    requires GoodTable(t) && Sized(u) && Apply(t, u, rule).Success?
    ensures Holds(t, Apply(t, u, rule).value, MayRunLater) == Or(Says(t, rule, MayRunLater), Holds(t, u, MayRunLater))
  {
    hide Same, SetCategory, Different, AddSub, Find, ApplyList;
    Families(t, u, rule);
    if rule.Allow? || rule.Deny? || rule.AllowSub? {
      SmallId(t, Find(Names(t), rule.name, 0).value);
    } else if rule.Category? && !Same(rule.name, "all") {
      CategoryMeans(t, u, Find(t.cats, rule.name, 0).value, rule.add, FUTURE);
    }
  }

  lemma {:induction false} WithoutMeans(s: seq<string>, x: string, y: string)
    requires Distinct(s)
    ensures y in Without(s, x) <==> y in s && y != x
  {
    WithoutDistinct(s, x);
  }

  lemma PasswordRule(t: Table, u: User, rule: Rule, h: string)
    requires Distinct(u.passwords) && ApplyList(t, u, rule).Success?
    ensures (h in ApplyList(t, u, rule).value.passwords) == Or(Says(t, rule, HasHash(h)), h in u.passwords)
            || rule.Reset?
  {
    hide Without, ValidHash, HasSpaces;
    if rule.RemovePassword? { WithoutMeans(u.passwords, t.hash(rule.text), h); }
    if rule.RemoveHash? { WithoutMeans(u.passwords, rule.text, h); }
  }

  lemma ListRule(t: Table, u: User, rule: Rule, f: Fact)
    requires GoodTable(t) && Sized(u) && Distinct(u.passwords) && Apply(t, u, rule).Success?
    requires !f.MayRun? && !f.MayRunSub? && !f.MayRunLater?
    ensures Holds(t, Apply(t, u, rule).value, f) == Or(Says(t, rule, f), Holds(t, u, f))
  {
    hide GoodTable, Apply, Without, ValidHash, HasSpaces, Distinct;
    Families(t, u, rule);
    if !AboutCommands(rule) && !rule.Reset? {
      if f.HasHash? { PasswordRule(t, u, rule, f.hash); } else { OtherListRule(t, u, rule, f); }
    }
  }

  lemma OtherListRule(t: Table, u: User, rule: Rule, f: Fact)
    requires ApplyList(t, u, rule).Success?
    requires f.NeedsNoPassword? || f.HasPattern? || f.MayTouchAllKeys? || f.IsEnabled? || f.IsDisabled?
    requires Sized(u) && GoodTable(t) && Sized(ApplyList(t, u, rule).value)
    ensures Holds(t, ApplyList(t, u, rule).value, f) == Or(Says(t, rule, f), Holds(t, u, f)) || rule.Reset?
  {
    hide GoodTable, Without, ValidHash, HasSpaces;
  }

  /** A rule that succeeds makes so what it says, and leaves the rest as it was. */
  lemma RuleMeans(t: Table, u: User, rule: Rule, f: Fact)
    requires GoodTable(t) && Sized(u) && Distinct(u.passwords) && About(t, f) && Apply(t, u, rule).Success?
    ensures Holds(t, Apply(t, u, rule).value, f) == Or(Says(t, rule, f), Holds(t, u, f))
  {
    hide Apply, Says, SaysOfCommand, Same, GoodTable, Distinct;
    match f
    case MayRun(i) => CommandRule(t, u, rule, i);
    case MayRunSub(i, sub) => SubRule(t, u, rule, i, sub);
    case MayRunLater => LaterRule(t, u, rule);
    case _ => ListRule(t, u, rule, f);
  }

  predicate IsCommand(t: Table, name: string) {
    exists i | 0 <= i < |t.cmds| :: Same(t.cmds[i].name, name)
  }

  predicate IsAllowed(t: Table, u: User, name: string)
    requires Sized(u) && GoodTable(t)
  {
    exists i | 0 <= i < |t.cmds| :: Same(t.cmds[i].name, name) && u.bits[t.cmds[i].id]
  }

  predicate IsCategory(t: Table, name: string) {
    Same(name, "all") || exists c | 0 <= c < |t.cats| :: Same(t.cats[c], name)
  }

  /** What is wrong with a rule, if anything. */
  function Fault(t: Table, u: User, rule: Rule): Option<Error>
    requires Sized(u) && GoodTable(t)
  {
    match rule
    case Allow(name) => if IsCommand(t, name) then None else Some(ENOENT)
    case Deny(name) => if IsCommand(t, name) then None else Some(ENOENT)
    case AllowSub(name, sub) =>
      if !IsCommand(t, name) then Some(ENOENT)
      else if sub == "" then Some(EINVAL)
      else if IsAllowed(t, u, name) then Some(EBUSY) else None
    case Category(_, name) => if IsCategory(t, name) then None else Some(ENOENT)
    case AddHash(h) => if ValidHash(h) then None else Some(EBADMSG)
    case RemoveHash(h) => if !ValidHash(h) then Some(EBADMSG) else if h in u.passwords then None else Some(ENODEV)
    case RemovePassword(p) => if t.hash(p) in u.passwords then None else Some(ENODEV)
    case Pattern(p) =>
      if p == "*" then None else if u.allKeys then Some(EEXIST) else if HasSpaces(p) then Some(EINVAL) else None
    case Other => Some(EINVAL)
    case _ => None
  }

  /** A rule fails exactly for its fault. */
  lemma FaultIs(t: Table, u: User, rule: Rule)
    requires GoodTable(t) && Sized(u)
    ensures var r := Apply(t, u, rule);
            match Fault(t, u, rule) case None => r.Success? case Some(e) => r == Failure(e)
  {
    hide Lower, Different, SetCategory, AddSub, ValidHash, HasSpaces;
    if rule.Allow? || rule.Deny? || rule.AllowSub? {
      var k := Find(Names(t), rule.name, 0);
      if k.Some? {
        assert Same(t.cmds[k.value].name, rule.name);
        forall i | 0 <= i < |t.cmds| ensures Same(t.cmds[i].name, rule.name) ==> i == k.value {
          CommandOf(t, rule.name, i);
        }
      } else {
        forall i | 0 <= i < |t.cmds| ensures !Same(t.cmds[i].name, rule.name) { assert Names(t)[i] == t.cmds[i].name; }
      }
    }
  }

  // ----------------------------------------------------------------- histories

  /** What the last rule that speaks of a fact says; a new user is disabled and may do nothing. */
  function LastWord(t: Table, rules: seq<Rule>, f: Fact): bool
    requires About(t, f)
  {
    if rules == [] then f.IsDisabled?
    else Or(Says(t, rules[|rules| - 1], f), LastWord(t, rules[..|rules| - 1], f))
  }

  /** Whatever rules a user was made by, the last one that speaks of something decides it. */
  lemma {:induction false} LastRuleDecides(t: Table, rules: seq<Rule>, f: Fact)
    requires GoodTable(t) && GoodHash(t) && About(t, f) && ApplyAll(t, NewUser(), rules).Success?
    ensures Holds(t, ApplyAll(t, NewUser(), rules).value, f) == LastWord(t, rules, f)
    decreases |rules|
  {
    hide Apply, Says, Same, GoodHash, Different, Distinct, HasSpaces, ValidHash;
    if rules != [] {
      var front, last := rules[..|rules| - 1], rules[|rules| - 1];
      assert rules == front + [last] && [last][0] == last && [last][1..] == [];
      ApplyAppend(t, NewUser(), front, [last]);
      LastRuleDecides(t, front, f);
      NewUserGood(t);
      ApplyAllGood(t, NewUser(), front);
      RuleMeans(t, ApplyAll(t, NewUser(), front).value, last, f);
    }
  }

  // -------------------------------------------------------------- permissions

  datatype Permission = Permitted | DeniedCommand | DeniedKey(at: nat)

  /** Whether the user may run command i with these arguments. */
  predicate Permits(t: Table, u: User, i: nat, isAuth: bool, args: seq<string>)
    requires Sized(u) && GoodTable(t) && i < |t.cmds|
  {
    u.allCommands || isAuth || u.bits[t.cmds[i].id] || (args != [] && Holds(t, u, MayRunSub(i, args[0])))
  }

  predicate MayTouch(u: User, glob: (string, string) -> bool, key: string) {
    u.allKeys || exists p | p in u.patterns :: glob(p, key)
  }

  predicate Accepts(t: Table, u: User, password: string) {
    !u.disabled && (u.noPass || t.hash(password) in u.passwords)
  }

  /** The rules decide who may run what: a command, if the last rule that speaks of it allows it, or if
      the last that speaks of it with its first argument does. */
  lemma PermitsMeans(t: Table, rules: seq<Rule>, i: nat, isAuth: bool, args: seq<string>)
    requires GoodTable(t) && GoodHash(t) && i < |t.cmds| && ApplyAll(t, NewUser(), rules).Success?
    ensures Permits(t, ApplyAll(t, NewUser(), rules).value, i, isAuth, args) <==>
            || isAuth || LastWord(t, rules, MayRun(i))
            || (args != [] && LastWord(t, rules, MayRunSub(i, args[0])))
  {
    hide ApplyAll, LastWord, Same, GoodHash, GoodLists, IsId;
    var u := ApplyAll(t, NewUser(), rules).value;
    NewUserGood(t);
    ApplyAllGood(t, NewUser(), rules);
    assert GoodBit(t, u, t.cmds[i].id);
    LastRuleDecides(t, rules, MayRun(i));
    if args != [] { LastRuleDecides(t, rules, MayRunSub(i, args[0])); }
  }

  /** Who may touch which key. */
  lemma TouchMeans(t: Table, rules: seq<Rule>, glob: (string, string) -> bool, key: string)
    requires GoodTable(t) && GoodHash(t) && ApplyAll(t, NewUser(), rules).Success?
    ensures MayTouch(ApplyAll(t, NewUser(), rules).value, glob, key) <==>
            LastWord(t, rules, MayTouchAllKeys) || exists p :: LastWord(t, rules, HasPattern(p)) && glob(p, key)
  {
    hide ApplyAll, LastWord, GoodTable, GoodHash;
    var u := ApplyAll(t, NewUser(), rules).value;
    LastRuleDecides(t, rules, MayTouchAllKeys);
    forall p ensures p in u.patterns <==> LastWord(t, rules, HasPattern(p)) {
      LastRuleDecides(t, rules, HasPattern(p));
    }
  }

  /** And who may log in with which password. */
  lemma AcceptsMeans(t: Table, rules: seq<Rule>, password: string)
    requires GoodTable(t) && GoodHash(t) && ApplyAll(t, NewUser(), rules).Success?
    ensures Accepts(t, ApplyAll(t, NewUser(), rules).value, password) <==>
            && LastWord(t, rules, IsEnabled)
            && (LastWord(t, rules, NeedsNoPassword) || LastWord(t, rules, HasHash(t.hash(password))))
  {
    hide ApplyAll, LastWord, GoodTable, GoodHash, GoodCommands, Distinct, ValidHash, HasSpaces;
    NewUserGood(t);
    ApplyAllGood(t, NewUser(), rules);
    LastRuleDecides(t, rules, IsEnabled);
    LastRuleDecides(t, rules, NeedsNoPassword);
    LastRuleDecides(t, rules, HasHash(t.hash(password)));
  }
}
