/** Access control lists: the interpreter of user rules, and the printer whose rules are meant to
    rebuild the same user. Rules are tokens; the command table and the password hash are fixed. */
module Acl {
  import opened Sequences
  import opened Wrappers

  const BITS: nat := 1024          // USER_COMMAND_BITS_COUNT
  const FUTURE: nat := BITS - 1    // set only by +@all: the right to run commands loaded later
  const INT_MAX: nat := 0x7fff_ffff
  const HASH_LENGTH: nat := 64

  datatype Cmd = Cmd(name: string, id: nat, isModule: bool, cats: set<nat>)

  datatype Table = Table(cmds: seq<Cmd>, cats: seq<string>, hash: string -> string)

  datatype User = User(
    enabled: bool, disabled: bool, allKeys: bool, allCommands: bool, noPass: bool,
    passwords: seq<string>, patterns: seq<string>, bits: seq<bool>, subs: seq<seq<string>>)

  datatype Rule =
    | Empty | On | Off | AllKeys | ResetKeys | AllCommands | NoCommands | NoPass | ResetPass | Reset
    | AddPassword(text: string) | AddHash(text: string) | RemovePassword(text: string) | RemoveHash(text: string)
    | Pattern(text: string)
    | Allow(name: string) | Deny(name: string) | AllowSub(name: string, sub: string)
    | Category(add: bool, name: string)
    | Other

  datatype Error = EINVAL | ENOENT | EBUSY | EEXIST | ENODEV | EBADMSG

  // ------------------------------------------------------------------- names

  function LowerChar(c: char): char {
    if 'A' <= c <= 'Z' then (c as int + 32) as char else c
  }

  function Lower(s: string): string {
    seq(|s|, i requires 0 <= i < |s| => LowerChar(s[i]))
  }

  /** strcasecmp(a, b) == 0 */
  predicate Same(a: string, b: string) {
    Lower(a) == Lower(b)
  }

  function Find(names: seq<string>, name: string, i: nat): (r: Option<nat>)
    requires i <= |names|
    ensures r.Some? ==> i <= r.value < |names| && Same(names[r.value], name)
    ensures r.None? ==> forall k | i <= k < |names| :: !Same(names[k], name)
    decreases |names| - i
  {
    if i == |names| then None
    else if Same(names[i], name) then Some(i)
    else Find(names, name, i + 1)
  }

  predicate Different(names: seq<string>) {
    forall i, j | 0 <= i < j < |names| :: !Same(names[i], names[j])
  }

  function Names(t: Table): seq<string> {
    seq(|t.cmds|, i requires 0 <= i < |t.cmds| => t.cmds[i].name)
  }

  /** Every command has its own name and bit, and no category is called "all". */
  predicate GoodTable(t: Table) {
    && Different(Names(t)) && Different(t.cats)
    && (forall i | 0 <= i < |t.cats| :: !Same(t.cats[i], "all"))
    && (forall i | 0 <= i < |t.cmds| :: t.cmds[i].id < FUTURE)
    && (forall i, j | 0 <= i < j < |t.cmds| :: t.cmds[i].id != t.cmds[j].id)
  }

  predicate ValidHash(h: string) {
    |h| == HASH_LENGTH && forall i | 0 <= i < |h| :: 'a' <= h[i] <= 'f' || '0' <= h[i] <= '9'
  }

  ghost predicate GoodHash(t: Table) {
    forall p: string :: ValidHash(t.hash(p))
  }

  predicate HasSpaces(s: string) {
    exists i | 0 <= i < |s| :: s[i] == ' ' || '\t' <= s[i] <= '\r' || s[i] == '\0'
  }

  // ------------------------------------------------------------------- rules

  predicate Sized(u: User) {
    |u.bits| == BITS == |u.subs|
  }

  function NoSubs(): (s: seq<seq<string>>)
    ensures |s| == BITS && forall k | 0 <= k < BITS :: s[k] == []
  {
    seq(BITS, _ => [])
  }

  function AllBits(value: bool): (b: seq<bool>)
    ensures |b| == BITS && forall k | 0 <= k < BITS :: b[k] == value
  {
    seq(BITS, _ => value)
  }

  function NewUser(): User {
    User(false, true, false, false, false, [], [], AllBits(false), NoSubs())
  }

  /** Two users that differ at most in what commands they may run. */
  predicate SameLists(u: User, v: User) {
    && u.enabled == v.enabled && u.disabled == v.disabled && u.allKeys == v.allKeys && u.noPass == v.noPass
    && u.passwords == v.passwords && u.patterns == v.patterns
  }

  function SetBit(u: User, id: nat, value: bool): (v: User)
    requires Sized(u)
    ensures Sized(v) && SameLists(u, v)
  {
    if id >= BITS then u
    else if value then u.(bits := u.bits[id := true])
    else u.(bits := u.bits[id := false], allCommands := false)
  }

  /** The whole of a command is allowed or denied. */
  function SetCommand(u: User, id: nat, value: bool): (v: User)
    requires Sized(u) && id < BITS
    ensures Sized(v) && SameLists(u, v)
  {
    var v := SetBit(u, id, value);
    v.(subs := v.subs[id := []])
  }

  predicate InCategory(cmd: Cmd, c: nat) {
    !cmd.isModule && c in cmd.cats
  }

  function SetCategory(t: Table, u: User, c: nat, value: bool, i: nat): (v: User)
    requires Sized(u) && GoodTable(t) && i <= |t.cmds|
    ensures Sized(v) && SameLists(u, v)
    decreases |t.cmds| - i
  {
    if i == |t.cmds| then u
    else SetCategory(t, if InCategory(t.cmds[i], c) then SetCommand(u, t.cmds[i].id, value) else u, c, value, i + 1)
  }

  function SetAll(u: User, value: bool): (v: User)
    ensures Sized(v) && SameLists(u, v)
  {
    u.(bits := AllBits(value), allCommands := value, subs := NoSubs())
  }

  function AddSub(subs: seq<string>, sub: string): seq<string> {
    if Find(subs, sub, 0).Some? then subs else subs + [sub]
  }

  function AddTo(list: seq<string>, s: string): seq<string> {
    if s in list then list else list + [s]
  }

  function ApplyPassword(u: User, h: string, add: bool): Result<User, Error> {
    if add then Success(u.(passwords := AddTo(u.passwords, h), noPass := false))
    else if h !in u.passwords then Failure(ENODEV)
    else Success(u.(passwords := Without(u.passwords, h)))
  }

  function ApplyPattern(u: User, p: string): Result<User, Error> {
    if p == "*" then Success(u.(allKeys := true, patterns := []))
    else if u.allKeys then Failure(EEXIST)
    else if HasSpaces(p) then Failure(EINVAL)
    else Success(u.(patterns := AddTo(u.patterns, p), allKeys := false))
  }

  function ApplyReset(u: User): User {
    var v := u.(noPass := false, passwords := [], allKeys := false, patterns := []);
    SetAll(v.(disabled := true, enabled := false), false)
  }

  /** The rules that leave the command bitmap and the subcommands alone. */
  function ApplyList(t: Table, u: User, rule: Rule): Result<User, Error> {
    match rule
    case Empty => Success(u)
    case On => Success(u.(enabled := true, disabled := false))
    case Off => Success(u.(disabled := true, enabled := false))
    case AllKeys => Success(u.(allKeys := true, patterns := []))
    case ResetKeys => Success(u.(allKeys := false, patterns := []))
    case NoPass => Success(u.(noPass := true, passwords := []))
    case ResetPass => Success(u.(noPass := false, passwords := []))
    case AddPassword(p) => ApplyPassword(u, t.hash(p), true)
    case AddHash(h) => if ValidHash(h) then ApplyPassword(u, h, true) else Failure(EBADMSG)
    case RemovePassword(p) => ApplyPassword(u, t.hash(p), false)
    case RemoveHash(h) => if ValidHash(h) then ApplyPassword(u, h, false) else Failure(EBADMSG)
    case Pattern(p) => ApplyPattern(u, p)
    case _ => Failure(EINVAL)
  }

  /** One rule: the changed user, or the error that left the user as it was. */
  function Apply(t: Table, u: User, rule: Rule): (r: Result<User, Error>)
    requires Sized(u) && GoodTable(t)
    ensures r.Success? ==> Sized(r.value)
  {
    match rule
    case AllCommands => Success(SetAll(u, true))
    case NoCommands => Success(SetAll(u, false))
    case Reset => Success(ApplyReset(u))
    case Allow(name) => ApplyCommand(t, u, name, true)
    case Deny(name) => ApplyCommand(t, u, name, false)
    case AllowSub(name, sub) => ApplySub(t, u, name, sub)
    case Category(add, name) => ApplyCategory(t, u, name, add)
    case _ => ApplyList(t, u, rule)
  }

  function ApplyCategory(t: Table, u: User, name: string, add: bool): (r: Result<User, Error>)
    requires Sized(u) && GoodTable(t)
    ensures r.Success? ==> Sized(r.value) && SameLists(u, r.value)
  {
    if Same(name, "all") then Success(SetAll(u, add))
    else
      var c := Find(t.cats, name, 0);
      if c.None? then Failure(ENOENT) else Success(SetCategory(t, u, c.value, add, 0))
  }

  function ApplyCommand(t: Table, u: User, name: string, value: bool): (r: Result<User, Error>)
    requires Sized(u) && GoodTable(t)
    ensures r.Success? ==> Sized(r.value) && SameLists(u, r.value)
  {
    var k := Find(Names(t), name, 0);
    if k.None? then Failure(ENOENT) else Success(SetCommand(u, t.cmds[k.value].id, value))
  }

  function ApplySub(t: Table, u: User, name: string, sub: string): (r: Result<User, Error>)
    requires Sized(u) && GoodTable(t)
    ensures r.Success? ==> Sized(r.value) && SameLists(u, r.value)
  {
    var k := Find(Names(t), name, 0);
    if k.None? then Failure(ENOENT)
    else if sub == "" then Failure(EINVAL)
    else
      var id := t.cmds[k.value].id;
      if u.bits[id] then Failure(EBUSY)
      else Success(SetBit(u.(subs := u.subs[id := AddSub(u.subs[id], sub)]), id, false))
  }

  /** Apply rules in order; the first error ends it. */
  function ApplyAll(t: Table, u: User, rules: seq<Rule>): (r: Result<User, Error>)
    requires Sized(u) && GoodTable(t)
    ensures r.Success? ==> Sized(r.value)
    decreases |rules|
  {
    if rules == [] then Success(u)
    else
      var r := Apply(t, u, rules[0]);
      if r.Failure? then r else ApplyAll(t, r.value, rules[1..])
  }

  // --------------------------------------------------------- reachable users

  predicate GoodLists(u: User) {
    && u.enabled != u.disabled
    && (u.noPass ==> u.passwords == []) && (u.allKeys ==> u.patterns == [])
    && Distinct(u.passwords) && (forall i | 0 <= i < |u.passwords| :: ValidHash(u.passwords[i]))
    && Distinct(u.patterns)
    && (forall i | 0 <= i < |u.patterns| :: !HasSpaces(u.patterns[i]) && u.patterns[i] != "*")
  }

  predicate IsId(t: Table, id: nat) {
    exists i | 0 <= i < |t.cmds| :: t.cmds[i].id == id
  }

  predicate GoodBit(t: Table, u: User, k: nat)
    requires Sized(u) && k < BITS
  {
    && (u.allCommands ==> u.bits[k])
    && (u.bits[k] ==> u.subs[k] == [])
    && (!IsId(t, k) ==> u.bits[k] == u.bits[FUTURE] && u.subs[k] == [])
    && Different(u.subs[k]) && "" !in u.subs[k]
  }

  predicate GoodCommands(t: Table, u: User) {
    Sized(u) && forall k: nat | k < BITS :: GoodBit(t, u, k)
  }

  /** What every user keeps, whatever rules were applied to it. */
  predicate Good(t: Table, u: User) {
    GoodLists(u) && GoodCommands(t, u)
  }

  lemma AddToGood(list: seq<string>, s: string)
    requires Distinct(list)
    ensures Distinct(AddTo(list, s)) && forall x | x in AddTo(list, s) :: x in list || x == s
  {
  }

  lemma ApplyListGood(t: Table, u: User, rule: Rule)
    requires GoodHash(t) && GoodLists(u) && ApplyList(t, u, rule).Success?
    ensures var v := ApplyList(t, u, rule).value;
            GoodLists(v) && SameCommands(u, v)
  {
    hide ValidHash, HasSpaces, AddTo, Without, Distinct;
    match rule
    case AddPassword(p) => AddHashGood(u, t.hash(p));
    case AddHash(h) => AddHashGood(u, h);
    case RemovePassword(p) => RemoveHashGood(u, t.hash(p));
    case RemoveHash(h) => RemoveHashGood(u, h);
    case Pattern(p) => AddPatternGood(u, p);
    case _ => NothingDistinct<string>();
  }

  lemma AddHashGood(u: User, h: string)
    requires GoodLists(u) && ValidHash(h)
    ensures GoodLists(ApplyPassword(u, h, true).value)
  {
    hide ValidHash, HasSpaces, Distinct;
    AddToGood(u.passwords, h);
  }

  lemma RemoveHashGood(u: User, h: string)
    requires GoodLists(u) && h in u.passwords
    ensures GoodLists(ApplyPassword(u, h, false).value)
  {
    hide ValidHash, HasSpaces, Distinct;
    WithoutDistinct(u.passwords, h);
    var r := Without(u.passwords, h);
    forall i | 0 <= i < |r| ensures ValidHash(r[i]) { assert r[i] in u.passwords; }
  }

  lemma AddPatternGood(u: User, p: string)
    requires GoodLists(u) && ApplyPattern(u, p).Success?
    ensures GoodLists(ApplyPattern(u, p).value)
  {
    hide ValidHash, HasSpaces, Distinct;
    AddToGood(u.patterns, p);
    NothingDistinct<string>();
  }

  lemma SmallId(t: Table, i: nat)
    requires GoodTable(t) && i < |t.cmds|
    ensures t.cmds[i].id < FUTURE
  {
    hide Different;
  }

  lemma EmptyIsDifferent()
    ensures Different([])
  {
  }

  lemma SetCommandGood(t: Table, u: User, i: nat, value: bool)
    requires GoodTable(t) && GoodCommands(t, u) && i < |t.cmds|
    ensures GoodCommands(t, SetCommand(u, t.cmds[i].id, value))
  {
    hide GoodTable, Different, Same;
    var id := t.cmds[i].id;
    SmallId(t, i);
    var v := SetCommand(u, id, value);
    forall k: nat | k < BITS ensures GoodBit(t, v, k) {
      assert GoodBit(t, u, k) && GoodBit(t, u, FUTURE);
      if k == id { assert IsId(t, k); EmptyIsDifferent(); }
    }
  }

  lemma {:induction false} SetCategoryGood(t: Table, u: User, c: nat, value: bool, i: nat)
    requires GoodTable(t) && GoodCommands(t, u) && i <= |t.cmds|
    ensures GoodCommands(t, SetCategory(t, u, c, value, i))
    decreases |t.cmds| - i
  {
    hide GoodTable, GoodBit, SetCommand;
    if i < |t.cmds| {
      SmallId(t, i);
      SetCommandGood(t, u, i, value);
      SetCategoryGood(t, if InCategory(t.cmds[i], c) then SetCommand(u, t.cmds[i].id, value) else u, c, value, i + 1);
    }
  }

  lemma SetAllGood(t: Table, u: User, value: bool)
    ensures GoodCommands(t, SetAll(u, value))
  {
    hide IsId, Same;
    EmptyIsDifferent();
  }

  lemma AddSubGood(subs: seq<string>, sub: string)
    requires Different(subs) && "" !in subs && sub != ""
    ensures Different(AddSub(subs, sub)) && "" !in AddSub(subs, sub)
  {
    hide Same;
    assert forall a, b :: Same(a, b) == Same(b, a) by { SameSymmetric(); }
  }

  lemma SameSymmetric()
    ensures forall a, b :: Same(a, b) == Same(b, a)
  {
  }

  lemma ApplySubGood(t: Table, u: User, name: string, sub: string)
    requires GoodTable(t) && GoodCommands(t, u) && ApplySub(t, u, name, sub).Success?
    ensures GoodCommands(t, ApplySub(t, u, name, sub).value)
  {
    hide GoodTable, Different, Same, AddSub;
    var i := Find(Names(t), name, 0).value;
    var id := t.cmds[i].id;
    SmallId(t, i);
    var v := ApplySub(t, u, name, sub).value;
    assert GoodBit(t, u, id);
    AddSubGood(u.subs[id], sub);
    forall k: nat | k < BITS ensures GoodBit(t, v, k) {
      assert GoodBit(t, u, k) && GoodBit(t, u, FUTURE);
      if k == id { assert IsId(t, k); }
    }
  }

  lemma ApplyResetGood(t: Table, u: User)
    ensures Good(t, ApplyReset(u))
  {
    hide IsId, Same, GoodCommands;
    NothingDistinct<string>();
    var v := u.(noPass := false, passwords := [], allKeys := false, patterns := [], disabled := true, enabled := false);
    SetAllGood(t, v, false);
  }

  lemma ApplyCommandGood(t: Table, u: User, name: string, value: bool)
    requires GoodTable(t) && GoodCommands(t, u) && ApplyCommand(t, u, name, value).Success?
    ensures GoodCommands(t, ApplyCommand(t, u, name, value).value)
  {
    hide GoodTable, GoodCommands, SetCommand;
    var i := Find(Names(t), name, 0).value;
    SmallId(t, i);
    SetCommandGood(t, u, i, value);
  }

  lemma ApplyCategoryGood(t: Table, u: User, name: string, add: bool)
    requires GoodTable(t) && GoodCommands(t, u) && ApplyCategory(t, u, name, add).Success?
    ensures GoodCommands(t, ApplyCategory(t, u, name, add).value)
  {
    hide GoodTable, GoodCommands, SetCategory, SetAll;
    if Same(name, "all") {
      SetAllGood(t, u, add);
    } else {
      SetCategoryGood(t, u, Find(t.cats, name, 0).value, add, 0);
    }
  }

  /** Two users that may run the same commands. */
  predicate SameCommands(u: User, v: User) {
    u.bits == v.bits && u.subs == v.subs && u.allCommands == v.allCommands
  }

  lemma SameCommandsGood(t: Table, u: User, v: User)
    requires GoodCommands(t, u) && SameCommands(u, v)
    ensures GoodCommands(t, v)
  {
    hide IsId, Different;
    forall k: nat | k < BITS ensures GoodBit(t, v, k) { assert GoodBit(t, u, k); }
  }

  /** No rule, and no error, takes a user out of the reachable shape. */
  lemma ApplyGood(t: Table, u: User, rule: Rule)
    requires GoodTable(t) && GoodHash(t) && Good(t, u) && Apply(t, u, rule).Success?
    ensures Good(t, Apply(t, u, rule).value)
  {
    hide GoodTable, GoodHash, SetAll, SetCommand, SetCategory, ApplyList, ApplySub, GoodBit, Find, Same, Distinct;
    match rule
    case AllCommands => SetAllGood(t, u, true);
    case NoCommands => SetAllGood(t, u, false);
    case Reset => ApplyResetGood(t, u);
    case Allow(name) => ApplyCommandGood(t, u, name, true);
    case Deny(name) => ApplyCommandGood(t, u, name, false);
    case AllowSub(name, sub) => ApplySubGood(t, u, name, sub);
    case Category(add, name) => ApplyCategoryGood(t, u, name, add);
    case _ =>
      ApplyListGood(t, u, rule);
      SameCommandsGood(t, u, ApplyList(t, u, rule).value);
  }

  lemma NewUserGood(t: Table)
    ensures Good(t, NewUser())
  {
    hide IsId, Same, GoodBit;
    NothingDistinct<string>();
    SetAllGood(t, NewUser(), false);
    SameCommandsGood(t, SetAll(NewUser(), false), NewUser());
  }

  lemma {:induction false} ApplyAllGood(t: Table, u: User, rules: seq<Rule>)
    requires GoodTable(t) && GoodHash(t) && Good(t, u) && ApplyAll(t, u, rules).Success?
    ensures Good(t, ApplyAll(t, u, rules).value)
    decreases |rules|
  {
    hide GoodTable, GoodHash, GoodLists, GoodBit, Apply;
    if rules != [] {
      ApplyGood(t, u, rules[0]);
      ApplyAllGood(t, Apply(t, u, rules[0]).value, rules[1..]);
    }
  }

  lemma {:induction false} ApplyAppend(t: Table, u: User, a: seq<Rule>, b: seq<Rule>)
    requires Sized(u) && GoodTable(t)
    ensures var r := ApplyAll(t, u, a);
            ApplyAll(t, u, a + b) == if r.Success? then ApplyAll(t, r.value, b) else r
    decreases |a|
  {
    hide GoodTable, Apply;
    if a == [] {
      assert a + b == b;
    } else {
      assert (a + b)[1..] == a[1..] + b;
      var r := Apply(t, u, a[0]);
      if r.Success? { ApplyAppend(t, r.value, a[1..], b); }
    }
  }
}
