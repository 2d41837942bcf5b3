/** Printing a user as rules: start from everything or nothing, apply the categories that fit best,
    correct single commands. The printed rules rebuild the user. */
module AclDescribe {
  import opened Sequences
  import opened Wrappers
  import opened Acl

  // -------------------------------------------------------------- describing

  function FlagRules(u: User): seq<Rule> {
    (if u.enabled then [On] else []) + (if u.disabled then [Off] else []) + (if u.noPass then [NoPass] else [])
  }

  function PasswordRules(list: seq<string>): seq<Rule> {
    seq(|list|, i requires 0 <= i < |list| => AddHash(list[i]))
  }

  function PatternRules(list: seq<string>): seq<Rule> {
    seq(|list|, i requires 0 <= i < |list| => Pattern(list[i]))
  }

  function KeyRules(u: User): seq<Rule> {
    if u.allKeys then [Pattern("*")] else PatternRules(u.patterns)
  }

  /** The commands of a category whose bit has the given value; unlike rules, this counts commands of modules too. */
  function Count(t: Table, bits: seq<bool>, c: nat, value: bool, i: nat): nat
    requires GoodTable(t) && |bits| == BITS && i <= |t.cmds|
    decreases |t.cmds| - i
  {
    if i == |t.cmds| then 0
    else (if c in t.cmds[i].cats && bits[t.cmds[i].id] == value then 1 else 0) + Count(t, bits, c, value, i + 1)
  }

  /** The commands of a category from n on whose bit has the given value. */
  function Agreeing(t: Table, bits: seq<bool>, c: nat, value: bool, n: nat): set<nat>
    requires GoodTable(t) && |bits| == BITS
  {
    set i: nat | n <= i < |t.cmds| && c in t.cmds[i].cats && bits[t.cmds[i].id] == value
  }

  /** It is the size of the set of these commands. */
  lemma {:induction false} CountIs(t: Table, bits: seq<bool>, c: nat, value: bool, n: nat)
    requires GoodTable(t) && |bits| == BITS && n <= |t.cmds|
    ensures Count(t, bits, c, value, n) == |Agreeing(t, bits, c, value, n)|
    decreases |t.cmds| - n
  {
    hide GoodTable;
    var all := Agreeing(t, bits, c, value, n);
    if n < |t.cmds| {
      CountIs(t, bits, c, value, n + 1);
      OneMoreAgrees(t, bits, c, value, n);
    } else {
      assert all == {};
    }
  }

  lemma OneMoreAgrees(t: Table, bits: seq<bool>, c: nat, value: bool, n: nat)
    requires GoodTable(t) && |bits| == BITS && n < |t.cmds|
    ensures |Agreeing(t, bits, c, value, n)| ==
            |Agreeing(t, bits, c, value, n + 1)| + if c in t.cmds[n].cats && bits[t.cmds[n].id] == value then 1 else 0
  {
    hide Different;
    var rest := Agreeing(t, bits, c, value, n + 1);
    assert Agreeing(t, bits, c, value, n) ==
           if c in t.cmds[n].cats && bits[t.cmds[n].id] == value then rest + {n} else rest;
  }

  /** A category fits when more of its commands agree with the user than differ. */
  predicate Fits(t: Table, add: bool, bits: seq<bool>, applied: set<nat>, j: nat)
    requires GoodTable(t) && |bits| == BITS
  {
    j !in applied && Count(t, bits, j, !add, 0) < Count(t, bits, j, add, 0) && Count(t, bits, j, !add, 0) <= INT_MAX
  }

  predicate Better(t: Table, add: bool, bits: seq<bool>, j: nat, k: nat)
    requires GoodTable(t) && |bits| == BITS
  {
    || Count(t, bits, j, !add, 0) < Count(t, bits, k, !add, 0)
    || (&& Count(t, bits, j, !add, 0) == Count(t, bits, k, !add, 0)
        && Count(t, bits, j, add, 0) > Count(t, bits, k, add, 0))
  }

  /** The best fit among the first n categories. */
  function Best(t: Table, add: bool, bits: seq<bool>, applied: set<nat>, n: nat): (b: Option<nat>)
    requires GoodTable(t) && |bits| == BITS
    ensures b.Some? ==> b.value < n && Fits(t, add, bits, applied, b.value)
  {
    if n == 0 then None
    else
      var b := Best(t, add, bits, applied, n - 1);
      if Fits(t, add, bits, applied, n - 1) && (b.None? || Better(t, add, bits, n - 1, b.value)) then Some(n - 1) else b
  }

  /** The chosen category is one not applied yet of whose commands more agree than differ. No other such
      category has fewer that differ; of those with as few none has more that agree; and of those with as
      many none comes before it. */
  lemma {:induction false} BestIs(t: Table, add: bool, bits: seq<bool>, applied: set<nat>, n: nat, k: nat)
    requires GoodTable(t) && |bits| == BITS && k < n && k !in applied
    requires Count(t, bits, k, !add, 0) < Count(t, bits, k, add, 0) && Count(t, bits, k, !add, 0) <= INT_MAX
    ensures var b := Best(t, add, bits, applied, n);
            b.Some? &&
            var c := b.value;
            var (differ, agree) := (Count(t, bits, c, !add, 0), Count(t, bits, c, add, 0));
            && c !in applied && differ < agree && differ <= Count(t, bits, k, !add, 0)
            && (differ == Count(t, bits, k, !add, 0) ==>
                  agree > Count(t, bits, k, add, 0) || (agree == Count(t, bits, k, add, 0) && c <= k))
  {
    hide GoodTable, Count;
    if k < n - 1 { BestIs(t, add, bits, applied, n - 1, k); }
  }

  function UpTo(n: nat): (s: set<nat>)
    ensures forall j: nat :: j in s <==> j < n
  {
    if n == 0 then {} else UpTo(n - 1) + {n - 1}
  }

  /** The categories applied, best fit first; v keeps the commands still to be explained. */
  function Greedy(t: Table, add: bool, v: User, applied: set<nat>): (chosen: seq<nat>)
    requires GoodTable(t) && Sized(v)
    ensures forall i | 0 <= i < |chosen| :: chosen[i] < |t.cats|
    decreases UpTo(|t.cats|) - applied
  {
    var b := Best(t, add, v.bits, applied, |t.cats|);
    if b.None? then []
    else
      assert b.value in UpTo(|t.cats|) - applied;
      [b.value] + Greedy(t, add, SetCategory(t, v, b.value, !add, 0), applied + {b.value})
  }

  function CategoryRules(t: Table, chosen: seq<nat>, add: bool): seq<Rule>
    requires forall i | 0 <= i < |chosen| :: chosen[i] < |t.cats|
  {
    seq(|chosen|, i requires 0 <= i < |chosen| => Category(add, t.cats[chosen[i]]))
  }

  /** A user after all those categories. */
  function WithCategories(t: Table, v: User, chosen: seq<nat>, add: bool): (w: User)
    requires GoodTable(t) && Sized(v)
    ensures Sized(w) && SameLists(v, w)
    decreases |chosen|
  {
    if chosen == [] then v else WithCategories(t, SetCategory(t, v, chosen[0], add, 0), chosen[1..], add)
  }

  function SubRules(name: string, subs: seq<string>): seq<Rule> {
    seq(|subs|, j requires 0 <= j < |subs| => AllowSub(name, subs[j]))
  }

  /** What one command still needs, when its bit would otherwise be `bit`. */
  function Fix(cmd: Cmd, u: User, bit: bool): seq<Rule>
    requires Sized(u) && cmd.id < BITS
  {
    var want := u.bits[cmd.id];
    (if want == bit then [] else if want then [Allow(cmd.name)] else [Deny(cmd.name)])
    + (if want then [] else SubRules(cmd.name, u.subs[cmd.id]))
  }

  function Fixes(t: Table, u: User, bits: seq<bool>, i: nat): seq<Rule>
    requires GoodTable(t) && Sized(u) && |bits| == BITS && i <= |t.cmds|
    decreases |t.cmds| - i
  {
    if i == |t.cmds| then [] else Fix(t.cmds[i], u, bits[t.cmds[i].id]) + Fixes(t, u, bits, i + 1)
  }

  const ZERO_USER: User := User(false, false, false, false, false, [], [], AllBits(false), NoSubs())

  function CommandRules(t: Table, u: User): seq<Rule>
    requires GoodTable(t) && Sized(u)
  {
    var add := !u.bits[FUTURE];
    var chosen := Greedy(t, add, ZERO_USER.(bits := u.bits), {});
    var fake := WithCategories(t, SetAll(ZERO_USER, !add), chosen, add);
    [Category(!add, "all")] + CategoryRules(t, chosen, add) + Fixes(t, u, fake.bits, 0)
  }

  function Describe(t: Table, u: User): seq<Rule>
    requires GoodTable(t) && Sized(u)
  {
    FlagRules(u) + PasswordRules(u.passwords) + KeyRules(u) + CommandRules(t, u)
  }

  // -------------------------------------------------------------- rebuilding

  lemma {:induction false} AddPasswords(t: Table, v: User, all: seq<string>, i: nat)
    requires GoodTable(t) && Sized(v) && i <= |all| && Distinct(all) && v.passwords == all[..i]
    requires forall k | 0 <= k < |all| :: ValidHash(all[k])
    requires i < |all| || !v.noPass
    ensures ApplyAll(t, v, PasswordRules(all[i..])) == Success(v.(passwords := all, noPass := false))
    decreases |all| - i
  {
    hide GoodTable, ValidHash;
    var rules := PasswordRules(all[i..]);
    if i == |all| {
      assert all[..i] == all;
    } else {
      assert rules[1..] == PasswordRules(all[i + 1..]) && rules[0] == AddHash(all[i]);
      assert all[i] !in all[..i] && all[..i + 1] == all[..i] + [all[i]];
      AddPasswords(t, v.(passwords := all[..i + 1], noPass := false), all, i + 1);
    }
  }

  lemma {:induction false} AddPatterns(t: Table, v: User, all: seq<string>, i: nat)
    requires GoodTable(t) && Sized(v) && i <= |all| && Distinct(all) && v.patterns == all[..i] && !v.allKeys
    requires forall k | 0 <= k < |all| :: !HasSpaces(all[k]) && all[k] != "*"
    ensures ApplyAll(t, v, PatternRules(all[i..])) == Success(v.(patterns := all))
    decreases |all| - i
  {
    hide GoodTable, HasSpaces;
    var rules := PatternRules(all[i..]);
    if i == |all| {
      assert all[..i] == all;
    } else {
      assert rules[1..] == PatternRules(all[i + 1..]) && rules[0] == Pattern(all[i]);
      assert all[i] !in all[..i] && all[..i + 1] == all[..i] + [all[i]];
      AddPatterns(t, v.(patterns := all[..i + 1]), all, i + 1);
    }
  }

  lemma ListsRebuilt(t: Table, u: User)
    requires GoodTable(t) && GoodLists(u)
    ensures var r := ApplyAll(t, NewUser(), FlagRules(u) + PasswordRules(u.passwords) + KeyRules(u));
            r.Success? && SameLists(u, r.value) && SameCommands(NewUser(), r.value)
  {
    hide GoodTable, ValidHash, HasSpaces, Distinct, ApplyAll;
    var a := FlagsRebuilt(t, u);
    var flags := FlagRules(u);
    var b := a.(passwords := u.passwords);
    assert u.passwords[0..] == u.passwords && u.passwords[..0] == [];
    assert u.patterns[0..] == u.patterns && u.patterns[..0] == [];
    if u.passwords == [] {
      assert PasswordRules(u.passwords) == [];
      NoRules(t, a);
    } else {
      AddPasswords(t, a, u.passwords, 0);
    }
    ApplyAppend(t, NewUser(), flags, PasswordRules(u.passwords));
    ApplyAppend(t, NewUser(), flags + PasswordRules(u.passwords), KeyRules(u));
    if u.allKeys {
      OneRule(t, b, Pattern("*"));
    } else {
      AddPatterns(t, b, u.patterns, 0);
    }
  }

  lemma NoRules(t: Table, u: User)
    requires GoodTable(t) && Sized(u)
    ensures ApplyAll(t, u, []) == Success(u)
  {
  }

  lemma OneRule(t: Table, u: User, rule: Rule)
    requires GoodTable(t) && Sized(u)
    ensures ApplyAll(t, u, [rule]) == Apply(t, u, rule)
  {
    hide GoodTable, Apply;
    var r := Apply(t, u, rule);
    assert [rule][1..] == [];
  }

  lemma FlagsRebuilt(t: Table, u: User) returns (a: User)
    requires GoodTable(t) && GoodLists(u)
    ensures ApplyAll(t, NewUser(), FlagRules(u)) == Success(a)
    ensures a == NewUser().(enabled := u.enabled, disabled := u.disabled, noPass := u.noPass)
  {
    hide GoodTable, ValidHash, HasSpaces, Distinct, ApplyAll;
    a := NewUser().(enabled := u.enabled, disabled := u.disabled, noPass := u.noPass);
    var b := NewUser().(enabled := u.enabled, disabled := u.disabled);
    var first := if u.enabled then On else Off;
    OneRule(t, NewUser(), first);
    if u.noPass {
      assert FlagRules(u) == [first] + [NoPass];
      ApplyAppend(t, NewUser(), [first], [NoPass]);
      OneRule(t, b, NoPass);
    } else {
      assert FlagRules(u) == [first];
    }
  }

  // -------------------------------------------------------- commands rebuilt

  lemma FindName(t: Table, i: nat)
    requires GoodTable(t) && i < |t.cmds|
    ensures Find(Names(t), t.cmds[i].name, 0) == Some(i)
  {
    hide Lower;
    assert Names(t)[i] == t.cmds[i].name;
  }

  lemma FindCategory(t: Table, c: nat)
    requires GoodTable(t) && c < |t.cats|
    ensures Find(t.cats, t.cats[c], 0) == Some(c) && !Same(t.cats[c], "all")
  {
    hide Lower;
  }

  /** Rules about categories act on a user as WithCategories says. */
  lemma {:induction false} CategoriesApplied(t: Table, v: User, chosen: seq<nat>, add: bool)
    requires GoodTable(t) && Sized(v) && forall i | 0 <= i < |chosen| :: chosen[i] < |t.cats|
    ensures ApplyAll(t, v, CategoryRules(t, chosen, add)) == Success(WithCategories(t, v, chosen, add))
    decreases |chosen|
  {
    hide GoodTable, SetCategory, Find, Same;
    var rules := CategoryRules(t, chosen, add);
    if chosen == [] {
      NoRules(t, v);
    } else {
      assert rules[1..] == CategoryRules(t, chosen[1..], add);
      FindCategory(t, chosen[0]);
      CategoriesApplied(t, SetCategory(t, v, chosen[0], add, 0), chosen[1..], add);
    }
  }

  lemma SetCommandSame(v: User, w: User, id: nat, value: bool)
    requires Sized(v) && Sized(w) && SameCommands(v, w) && id < BITS
    ensures SameCommands(SetCommand(v, id, value), SetCommand(w, id, value))
  {
  }

  lemma {:induction false} CategorySame(t: Table, v: User, w: User, c: nat, value: bool, i: nat)
    requires GoodTable(t) && Sized(v) && Sized(w) && SameCommands(v, w) && i <= |t.cmds|
    ensures SameCommands(SetCategory(t, v, c, value, i), SetCategory(t, w, c, value, i))
    decreases |t.cmds| - i
  {
    hide GoodTable, SetCommand;
    if i < |t.cmds| {
      SmallId(t, i);
      var on, id := InCategory(t.cmds[i], c), t.cmds[i].id;
      SetCommandSame(v, w, id, value);
      CategorySame(t, if on then SetCommand(v, id, value) else v,
        if on then SetCommand(w, id, value) else w, c, value, i + 1);
    }
  }

  lemma {:induction false} CategoriesSame(t: Table, v: User, w: User, chosen: seq<nat>, add: bool)
    requires GoodTable(t) && Sized(v) && Sized(w) && SameCommands(v, w)
    ensures SameCommands(WithCategories(t, v, chosen, add), WithCategories(t, w, chosen, add))
    decreases |chosen|
  {
    hide GoodTable, SetCategory;
    if chosen != [] {
      CategorySame(t, v, w, chosen[0], add, 0);
      CategoriesSame(t, SetCategory(t, v, chosen[0], add, 0), SetCategory(t, w, chosen[0], add, 0), chosen[1..], add);
    }
  }

  /** Bits of no command stay, and no subcommands appear. */
  lemma {:induction false} CategoryKeeps(t: Table, v: User, c: nat, value: bool, i: nat, k: nat)
    requires GoodTable(t) && Sized(v) && i <= |t.cmds| && k < BITS && v.subs[k] == []
    ensures var w := SetCategory(t, v, c, value, i);
            w.subs[k] == [] && (!IsId(t, k) ==> w.bits[k] == v.bits[k])
    decreases |t.cmds| - i
  {
    hide GoodTable;
    if i < |t.cmds| {
      SmallId(t, i);
      var on, id := InCategory(t.cmds[i], c), t.cmds[i].id;
      assert id == k ==> IsId(t, k);
      CategoryKeeps(t, if on then SetCommand(v, id, value) else v, c, value, i + 1, k);
    }
  }

  lemma {:induction false} CategoriesKeep(t: Table, v: User, chosen: seq<nat>, add: bool, k: nat)
    requires GoodTable(t) && Sized(v) && k < BITS && v.subs[k] == []
    ensures var w := WithCategories(t, v, chosen, add);
            w.subs[k] == [] && (!IsId(t, k) ==> w.bits[k] == v.bits[k])
    decreases |chosen|
  {
    hide GoodTable, SetCategory, IsId;
    if chosen != [] {
      CategoryKeeps(t, v, chosen[0], add, 0, k);
      CategoriesKeep(t, SetCategory(t, v, chosen[0], add, 0), chosen[1..], add, k);
    }
  }

  // ------------------------------------------------------------- single fixes

  lemma SubApplied(t: Table, v: User, i: nat, all: seq<string>, j: nat)
    requires GoodTable(t) && Sized(v) && i < |t.cmds| && j < |all| && Different(all) && all[j] != ""
    requires var id := t.cmds[i].id; id < BITS && !v.bits[id] && v.subs[id] == all[..j]
    ensures var id := t.cmds[i].id;
            ApplySub(t, v, t.cmds[i].name, all[j]) ==
            Success(v.(subs := v.subs[id := all[..j + 1]], allCommands := false))
  {
    hide GoodTable, Same;
    FindName(t, i);
    assert all[..j + 1] == all[..j] + [all[j]];
    assert Find(all[..j], all[j], 0).None?;
    assert v.bits[t.cmds[i].id := false] == v.bits;
  }

  lemma {:induction false} SubsApplied(t: Table, v: User, i: nat, all: seq<string>, j: nat)
    requires GoodTable(t) && Sized(v) && i < |t.cmds| && j <= |all| && Different(all) && "" !in all
    requires var id := t.cmds[i].id; id < BITS && !v.bits[id] && v.subs[id] == all[..j]
    ensures var id := t.cmds[i].id;
            var r := ApplyAll(t, v, SubRules(t.cmds[i].name, all[j..]));
            r.Success? && SameLists(v, r.value) && r.value.bits == v.bits && r.value.subs == v.subs[id := all]
    decreases |all| - j
  {
    hide GoodTable, Different, ApplySub;
    var rules := SubRules(t.cmds[i].name, all[j..]);
    var id := t.cmds[i].id;
    if j == |all| {
      assert all[..j] == all && v.subs == v.subs[id := all];
      NoRules(t, v);
    } else {
      assert rules[1..] == SubRules(t.cmds[i].name, all[j + 1..]) && rules[0] == AllowSub(t.cmds[i].name, all[j]);
      assert all[j] in all;
      SubApplied(t, v, i, all, j);
      var w := v.(subs := v.subs[id := all[..j + 1]], allCommands := false);
      SubsApplied(t, w, i, all, j + 1);
      assert w.subs[id := all] == v.subs[id := all];
    }
  }

  /** The rules for one command give it the user's bit and subcommands. */
  lemma FixApplied(t: Table, u: User, v: User, i: nat)
    requires GoodTable(t) && GoodCommands(t, u) && Sized(v) && i < |t.cmds|
    requires t.cmds[i].id < BITS && v.subs[t.cmds[i].id] == []
    ensures var id := t.cmds[i].id;
            var r := ApplyAll(t, v, Fix(t.cmds[i], u, v.bits[id]));
            && r.Success? && SameLists(v, r.value)
            && r.value.bits == v.bits[id := u.bits[id]] && r.value.subs == v.subs[id := u.subs[id]]
  {
    hide GoodTable, Same, Find, ApplyAll, IsId, Different;
    var cmd := t.cmds[i];
    var id, want := cmd.id, u.bits[cmd.id];
    assert GoodBit(t, u, id);
    var first := if want == v.bits[id] then [] else if want then [Allow(cmd.name)] else [Deny(cmd.name)];
    var subs := if want then [] else SubRules(cmd.name, u.subs[id]);
    var w := if want == v.bits[id] then v else SetCommand(v, id, want);
    assert ApplyAll(t, v, first) == Success(w) by {
      NoRules(t, v);
      FindName(t, i);
      if want != v.bits[id] { OneRule(t, v, first[0]); }
    }
    assert w.bits == v.bits[id := want] && w.subs == v.subs[id := []] == v.subs;
    ApplyAppend(t, v, first, subs);
    assert u.subs[id][0..] == u.subs[id] && u.subs[id][..0] == [];
    if want {
      NoRules(t, w);
    } else {
      SubsApplied(t, w, i, u.subs[id], 0);
    }
  }

  predicate IsIdFrom(t: Table, i: nat, k: nat) {
    exists j | i <= j < |t.cmds| :: t.cmds[j].id == k
  }

  lemma OtherId(t: Table, i: nat, j: nat)
    requires GoodTable(t) && i < j < |t.cmds|
    ensures t.cmds[i].id != t.cmds[j].id
  {
    hide Different;
  }

  /** Where the single fixes leave bit k and its subcommands. */
  predicate Settled(t: Table, u: User, v: User, w: User, i: nat, k: nat)
    requires Sized(u) && Sized(v) && Sized(w) && k < BITS
  {
    if IsIdFrom(t, i, k) then w.bits[k] == u.bits[k] && w.subs[k] == u.subs[k]
    else w.bits[k] == v.bits[k] && w.subs[k] == v.subs[k]
  }

  lemma SettledStep(t: Table, u: User, v: User, w: User, x: User, i: nat, k: nat)
    requires Sized(u) && Sized(v) && Sized(w) && Sized(x) && k < BITS && i < |t.cmds| && t.cmds[i].id < BITS
    requires var id := t.cmds[i].id; w.bits == v.bits[id := u.bits[id]] && w.subs == v.subs[id := u.subs[id]]
    requires Settled(t, u, w, x, i + 1, k)
    ensures Settled(t, u, v, x, i, k)
  {
    assert IsIdFrom(t, i, k) == (t.cmds[i].id == k || IsIdFrom(t, i + 1, k));
  }

  lemma {:induction false} FixesApplied(t: Table, u: User, v: User, bits: seq<bool>, i: nat)
    requires GoodTable(t) && GoodCommands(t, u) && Sized(v) && i <= |t.cmds| && |bits| == BITS
    requires forall j | i <= j < |t.cmds| ::
               t.cmds[j].id < BITS && v.bits[t.cmds[j].id] == bits[t.cmds[j].id] && v.subs[t.cmds[j].id] == []
    ensures var r := ApplyAll(t, v, Fixes(t, u, bits, i));
            r.Success? && SameLists(v, r.value) && forall k: nat | k < BITS :: Settled(t, u, v, r.value, i, k)
    decreases |t.cmds| - i
  {
    hide GoodTable, GoodBit, ApplyAll, IsIdFrom, Fix;
    if i == |t.cmds| {
      NoRules(t, v);
      forall k: nat | k < BITS ensures Settled(t, u, v, v, i, k) { NoneFrom(t, i, k); }
    } else {
      var id := t.cmds[i].id;
      var one := Fix(t.cmds[i], u, bits[id]);
      FixApplied(t, u, v, i);
      var w := ApplyAll(t, v, one).value;
      forall j | i + 1 <= j < |t.cmds|
        ensures w.bits[t.cmds[j].id] == bits[t.cmds[j].id] && w.subs[t.cmds[j].id] == []
      {
        OtherId(t, i, j);
      }
      FixesApplied(t, u, w, bits, i + 1);
      ApplyAppend(t, v, one, Fixes(t, u, bits, i + 1));
      var x := ApplyAll(t, w, Fixes(t, u, bits, i + 1)).value;
      forall k: nat | k < BITS ensures Settled(t, u, v, x, i, k) { SettledStep(t, u, v, w, x, i, k); }
    }
  }

  lemma NoneFrom(t: Table, i: nat, k: nat)
    requires i >= |t.cmds|
    ensures !IsIdFrom(t, i, k)
  {
  }

  // ------------------------------------------------------------ full bitmaps

  /** With every bit set, the rules are just +@all. */
  lemma FullRules(t: Table, u: User)
    requires GoodTable(t) && GoodCommands(t, u) && u.bits == AllBits(true)
    ensures CommandRules(t, u) == [Category(true, "all")]
  {
    hide GoodTable, Count;
    var temp := ZERO_USER.(bits := u.bits);
    NothingFits(t, u.bits, {}, |t.cats|);
    assert Greedy(t, false, temp, {}) == [];
    assert CategoryRules(t, [], false) == [];
    NothingToFix(t, u, 0);
  }

  lemma {:induction false} NothingFits(t: Table, bits: seq<bool>, applied: set<nat>, n: nat)
    requires GoodTable(t) && bits == AllBits(true)
    ensures Best(t, false, bits, applied, n) == None
  {
    hide GoodTable, Count;
    if n > 0 {
      NothingFits(t, bits, applied, n - 1);
      NoneOff(t, bits, n - 1, 0);
    }
  }

  lemma {:induction false} NoneOff(t: Table, bits: seq<bool>, c: nat, i: nat)
    requires GoodTable(t) && bits == AllBits(true) && i <= |t.cmds|
    ensures Count(t, bits, c, false, i) == 0
    decreases |t.cmds| - i
  {
    hide GoodTable;
    if i < |t.cmds| {
      SmallId(t, i);
      NoneOff(t, bits, c, i + 1);
    }
  }

  lemma {:induction false} NothingToFix(t: Table, u: User, i: nat)
    requires GoodTable(t) && Sized(u) && u.bits == AllBits(true) && i <= |t.cmds|
    ensures Fixes(t, u, u.bits, i) == []
    decreases |t.cmds| - i
  {
    hide GoodTable;
    if i < |t.cmds| {
      SmallId(t, i);
      NothingToFix(t, u, i + 1);
    }
  }

  // ------------------------------------------------------------------ theorem

  /** Where the fake user stands before the single fixes, for any user v in its place. */
  lemma CategoriesRebuilt(t: Table, u: User, v: User) returns (chosen: seq<nat>, fake: User, w: User)
    requires GoodTable(t) && Sized(u) && Sized(v)
    ensures forall i | 0 <= i < |chosen| :: chosen[i] < |t.cats|
    ensures var add := !u.bits[FUTURE];
            && Sized(fake) && Sized(w) && SameCommands(fake, w) && SameLists(v, w)
            && CommandRules(t, u) ==
               ([Category(!add, "all")] + CategoryRules(t, chosen, add)) + Fixes(t, u, fake.bits, 0)
            && ApplyAll(t, v, [Category(!add, "all")] + CategoryRules(t, chosen, add)) == Success(w)
    ensures forall k: nat | k < BITS :: w.subs[k] == [] && (!IsId(t, k) ==> w.bits[k] == u.bits[FUTURE])
  {
    hide GoodTable, Greedy, WithCategories, Fixes, ApplyAll, IsId;
    var add := !u.bits[FUTURE];
    chosen := Greedy(t, add, ZERO_USER.(bits := u.bits), {});
    var head := Category(!add, "all");
    var all := SetAll(v, !add);
    OneRule(t, v, head);
    ApplyAppend(t, v, [head], CategoryRules(t, chosen, add));
    CategoriesApplied(t, all, chosen, add);
    CategoriesSame(t, SetAll(ZERO_USER, !add), all, chosen, add);
    fake, w := WithCategories(t, SetAll(ZERO_USER, !add), chosen, add), WithCategories(t, all, chosen, add);
    forall k: nat | k < BITS ensures w.subs[k] == [] && (!IsId(t, k) ==> w.bits[k] == u.bits[FUTURE]) {
      CategoriesKeep(t, all, chosen, add, k);
    }
  }

  lemma CommandsRebuilt(t: Table, u: User, v: User)
    requires GoodTable(t) && GoodHash(t) && Good(t, u) && Good(t, v)
    ensures var r := ApplyAll(t, v, CommandRules(t, u));
            && r.Success? && SameLists(v, r.value) && r.value.bits == u.bits && r.value.subs == u.subs
            && r.value.allCommands == (u.bits == AllBits(true))
  {
    hide GoodTable, GoodHash, GoodLists, GoodBit, Fixes, ApplyAll, CommandRules, CategoryRules, IsId, IsIdFrom;
    var chosen, fake, w := CategoriesRebuilt(t, u, v);
    var add := !u.bits[FUTURE];
    forall j | 0 <= j < |t.cmds| ensures t.cmds[j].id < BITS { SmallId(t, j); }
    FixesApplied(t, u, w, fake.bits, 0);
    ApplyAppend(t, v, [Category(!add, "all")] + CategoryRules(t, chosen, add), Fixes(t, u, fake.bits, 0));
    var x := ApplyAll(t, v, CommandRules(t, u)).value;
    forall k: nat | k < BITS ensures x.bits[k] == u.bits[k] && x.subs[k] == u.subs[k] {
      assert Settled(t, u, w, x, 0, k);
      OutsideTable(t, u, k);
    }
    assert x.bits == u.bits && x.subs == u.subs;
    ApplyAllGood(t, v, CommandRules(t, u));
    FullFlag(t, u, v, x);
  }

  lemma OutsideTable(t: Table, u: User, k: nat)
    requires GoodCommands(t, u) && k < BITS
    ensures IsIdFrom(t, 0, k) == IsId(t, k)
    ensures !IsId(t, k) ==> u.bits[k] == u.bits[FUTURE] && u.subs[k] == []
  {
    assert GoodBit(t, u, k);
  }

  /** The ALLCOMMANDS flag comes back exactly when every bit is set. */
  lemma FullFlag(t: Table, u: User, v: User, x: User)
    requires GoodTable(t) && GoodCommands(t, u) && Sized(v) && GoodCommands(t, x) && x.bits == u.bits
    requires ApplyAll(t, v, CommandRules(t, u)) == Success(x)
    ensures x.allCommands == (u.bits == AllBits(true))
  {
    hide GoodTable, ApplyAll, CommandRules, IsId, Different;
    if x.allCommands {
      forall k: nat | k < BITS ensures u.bits[k] { assert GoodBit(t, x, k); }
      assert u.bits == AllBits(true);
    } else if u.bits == AllBits(true) {
      FullRules(t, u);
      OneRule(t, v, Category(true, "all"));
    }
  }

  /** Printing a user and applying the printed rules to any user after a reset succeeds at every
      rule and rebuilds the printed user, flag by flag, list by list and bit by bit. Only
      ALLCOMMANDS can differ: it comes back set exactly when every command bit is set. */
  lemma DescribeRebuilds(t: Table, u: User, v: User)
    requires GoodTable(t) && GoodHash(t) && Good(t, u) && Sized(v)
    ensures ApplyAll(t, v, [Reset] + Describe(t, u)) == Success(u.(allCommands := u.bits == AllBits(true)))
  {
    hide GoodTable, GoodHash, GoodBit, ApplyAll, CommandRules, FlagRules, PasswordRules, KeyRules;
    hide ValidHash, HasSpaces, Distinct;
    var lists := FlagRules(u) + PasswordRules(u.passwords) + KeyRules(u);
    OneRule(t, v, Reset);
    ApplyAppend(t, v, [Reset], Describe(t, u));
    assert ApplyReset(v) == NewUser();
    ListsRebuilt(t, u);
    var a := ApplyAll(t, NewUser(), lists).value;
    ApplyAppend(t, NewUser(), lists, CommandRules(t, u));
    SetAllGood(t, a, false);
    SameCommandsGood(t, SetAll(a, false), a);
    CommandsRebuilt(t, u, a);
  }

  /** Every user made by any rules, failed ones included, is rebuilt by its description. */
  lemma ReachableRebuilt(t: Table, history: seq<Rule>, v: User)
    requires GoodTable(t) && GoodHash(t) && Sized(v)
    ensures var u := Tried(t, NewUser(), history);
            ApplyAll(t, v, [Reset] + Describe(t, u)) == Success(u.(allCommands := u.bits == AllBits(true)))
  {
    hide GoodTable, GoodHash, Good, ApplyAll, Describe, Tried;
    var u := Tried(t, NewUser(), history);
    NewUserGood(t);
    TriedGood(t, NewUser(), history);
    assert Good(t, u);
    DescribeRebuilds(t, u, v);
  }

  /** A user to which rules were applied one by one; a rule that fails changes nothing. */
  function Tried(t: Table, u: User, rules: seq<Rule>): (v: User)
    requires GoodTable(t) && Sized(u)
    ensures Sized(v)
    decreases |rules|
  {
    if rules == [] then u
    else
      var r := Apply(t, u, rules[0]);
      Tried(t, if r.Success? then r.value else u, rules[1..])
  }

  lemma {:induction false} TriedGood(t: Table, u: User, rules: seq<Rule>)
    requires GoodTable(t) && GoodHash(t) && Good(t, u)
    ensures Good(t, Tried(t, u, rules))
    decreases |rules|
  {
    hide GoodTable, GoodHash, GoodLists, GoodBit, Apply;
    if rules != [] {
      var r := Apply(t, u, rules[0]);
      if r.Success? { ApplyGood(t, u, rules[0]); }
      TriedGood(t, if r.Success? then r.value else u, rules[1..]);
    }
  }
}
