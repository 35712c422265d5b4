/** Resolution of the process configuration from flags, overrides, environment and dotenv. */
module Flags {
  import opened Wrappers

  const COMMAND_KEY: string := "FLAGS2ENV_COMMAND"

  // What the option parser reports.
  datatype Parsed = Parsed(
    unknownOptions: seq<string>, errors: nat, extras: nat,
    dotenv: map<string, string>, dotenvOverrides: map<string, string>, providedFlags: map<string, string>)

  // A coerced value; scalars carry their text.
  datatype Value = Null | Text(text: string) | Bool(value: bool) | Number(text: string) | Composite

  datatype Failure =
    | UnknownOptions(names: string)
    | InvalidValues(count: nat)
    | UnexpectedArguments(count: nat)
    | CoercionFailed
    | NonScalar(name: string)

  type Coercion = map<string, string> -> Option<seq<(string, Value)>>

  // --- Option names ---------------------------------------------------------

  function BeforeEquals(s: string): string {
    if s == "" || s[0] == '=' then "" else [s[0]] + BeforeEquals(s[1..])
  }

  function OptionName(option: string): string {
    if "--" <= option then "--" + BeforeEquals(option[2..])
    else if |option| <= 2 then option
    else option[..2]
  }

  lemma {:induction false} BeforeEqualsIgnoresValue(name: string, value: string)
    requires '=' !in name
    ensures BeforeEquals(name + "=" + value) == name && BeforeEquals(name) == name
  {
    var s := name + "=" + value;
    if name == "" {
      assert s[0] == '=';
    } else {
      assert s[1..] == name[1..] + "=" + value;
      BeforeEqualsIgnoresValue(name[1..], value);
      assert [name[0]] + name[1..] == name;
    }
  }

  // The reported name of a long option does not depend on the text after `=`.
  lemma LongOptionHidesItsValue(name: string, value: string)
    requires '=' !in name
    ensures OptionName("--" + name + "=" + value) == "--" + name == OptionName("--" + name)
  {
    assert ("--" + name + "=" + value)[2..] == name + "=" + value && ("--" + name)[2..] == name;
    BeforeEqualsIgnoresValue(name, value);
  }

  // Of a short option, its dash and letter are reported, and nothing attached to them.
  lemma ShortOptionHidesItsValue(dash: char, letter: char, value: string)
    requires dash != '-' || letter != '-'
    ensures OptionName([dash, letter] + value) == [dash, letter]
    ensures OptionName([dash]) == [dash] && OptionName("") == ""
  {
    var option := [dash, letter] + value;
    assert option[0] == dash && option[1] == letter && option[..2] == [dash, letter];
    if value == "" { assert option == [dash, letter]; }
  }

  // --- Sorted sets of names -------------------------------------------------

  // Lexicographic order by code point, the order of the encoded bytes.
  predicate Less(a: string, b: string) {
    b != "" && (a == "" || a[0] < b[0] || (a[0] == b[0] && Less(a[1..], b[1..])))
  }

  // The strings agree up to some place, at which the first ends or has the lesser character.
  predicate FirstDiffersAt(a: string, b: string, k: nat) {
    k <= |a| && k < |b| && (forall i :: 0 <= i < k ==> a[i] == b[i]) && (k == |a| || a[k] < b[k])
  }

  lemma {:induction false} LessExactly(a: string, b: string)
    ensures Less(a, b) <==> exists k: nat :: FirstDiffersAt(a, b, k)
  {
    if a == "" || b == "" || a[0] != b[0] {
      if Less(a, b) { assert FirstDiffersAt(a, b, 0); }
      forall k: nat | FirstDiffersAt(a, b, k) ensures k == 0 {}
    } else {
      LessExactly(a[1..], b[1..]);
      if k: nat :| FirstDiffersAt(a[1..], b[1..], k) {
        forall i | 0 <= i < k + 1 ensures a[i] == b[i] {
          if i > 0 { assert a[1..][i - 1] == b[1..][i - 1]; }
        }
        assert FirstDiffersAt(a, b, k + 1);
      }
      forall k: nat | FirstDiffersAt(a, b, k) ensures k > 0 && FirstDiffersAt(a[1..], b[1..], k - 1) {}
    }
  }

  lemma {:induction false} LessTransitive(a: string, b: string, c: string)
    requires Less(a, b) && Less(b, c)
    ensures Less(a, c)
    decreases |a|
  {
    if a != "" && a[0] == b[0] == c[0] { LessTransitive(a[1..], b[1..], c[1..]); }
  }

  lemma {:induction false} LessTotal(a: string, b: string)
    ensures Less(a, b) || a == b || Less(b, a)
    ensures !(Less(a, b) && Less(b, a)) && !Less(a, a)
    decreases |a|
  {
    if a != "" {
      LessTotal(a[1..], if b != "" && b[0] == a[0] then b[1..] else a[1..]);
      assert a == [a[0]] + a[1..];
      if b != "" {
        assert b == [b[0]] + b[1..];
        if a[0] == b[0] { LessTotal(a[1..], a[1..]); }
      }
    }
  }

  predicate Sorted(names: seq<string>) {
    forall i, j :: 0 <= i < j < |names| ==> Less(names[i], names[j])
  }

  function Elements(names: seq<string>): set<string> { set i | 0 <= i < |names| :: names[i] }

  // An ordered set receives one more name.
  function Insert(names: seq<string>, name: string): seq<string> {
    if names == [] then [name]
    else if name == names[0] then names
    else if Less(name, names[0]) then [name] + names
    else [names[0]] + Insert(names[1..], name)
  }

  function Names(options: seq<string>): seq<string> {
    if options == [] then []
    else Insert(Names(options[..|options| - 1]), OptionName(options[|options| - 1]))
  }

  lemma {:induction false} InsertElements(names: seq<string>, name: string)
    ensures Elements(Insert(names, name)) == Elements(names) + {name}
  {
    if names != [] {
      var rest := names[1..];
      assert names == [names[0]] + rest;
      ElementsCons(names[0], rest);
      if name == names[0] {
        assert {name} + Elements(rest) + {name} == {name} + Elements(rest);
      } else if Less(name, names[0]) {
        ElementsCons(name, names);
        assert {name} + Elements(names) == Elements(names) + {name};
      } else {
        InsertElements(rest, name);
        ElementsCons(names[0], Insert(rest, name));
        assert {names[0]} + (Elements(rest) + {name}) == ({names[0]} + Elements(rest)) + {name};
      }
    } else {
      assert [name] == [name] + [];
      ElementsCons(name, []);
    }
  }

  lemma ElementsCons(x: string, xs: seq<string>)
    ensures Elements([x] + xs) == {x} + Elements(xs)
  {
    var all := [x] + xs;
    forall y ensures y in Elements(all) <==> y in {x} + Elements(xs) {
      if y in Elements(xs) {
        var i :| 0 <= i < |xs| && xs[i] == y;
        assert all[i + 1] == y;
      }
      if y == x { assert all[0] == y; }
    }
  }

  lemma {:induction false} InsertSorted(names: seq<string>, name: string)
    requires Sorted(names)
    ensures Sorted(Insert(names, name))
  {
    if names != [] && name != names[0] {
      if Less(name, names[0]) {
        forall j | 0 <= j < |names| ensures Less(name, names[j]) {
          if j > 0 { LessTransitive(name, names[0], names[j]); }
        }
      } else {
        LessTotal(name, names[0]);
        var rest := Insert(names[1..], name);
        InsertSorted(names[1..], name);
        InsertElements(names[1..], name);
        forall j | 0 <= j < |rest| ensures Less(names[0], rest[j]) {
          assert rest[j] in Elements(rest);
          if rest[j] != name {
            var i :| 0 <= i < |names[1..]| && names[1..][i] == rest[j];
            assert names[i + 1] == rest[j];
          }
        }
      }
    }
  }

  function OptionNames(options: seq<string>): set<string> { set i | 0 <= i < |options| :: OptionName(options[i]) }

  lemma OptionNamesSnoc(options: seq<string>, last: string)
    ensures OptionNames(options + [last]) == OptionNames(options) + {OptionName(last)}
  {
    var all := options + [last];
    forall y ensures y in OptionNames(all) <==> y in OptionNames(options) + {OptionName(last)} {
      if y in OptionNames(all) {
        var i :| 0 <= i < |all| && OptionName(all[i]) == y;
        if i < |options| { assert options[i] == all[i]; }
      }
      if y in OptionNames(options) {
        var i :| 0 <= i < |options| && OptionName(options[i]) == y;
        assert all[i] == options[i];
      }
      assert all[|options|] == last;
    }
  }

  lemma InsertKeepsSortedSet(names: seq<string>, name: string)
    requires Sorted(names)
    ensures Sorted(Insert(names, name)) && Elements(Insert(names, name)) == Elements(names) + {name}
  {
    InsertSorted(names, name);
    InsertElements(names, name);
  }

  lemma {:induction false} NamesAreTheSortedSet(options: seq<string>)
    ensures Sorted(Names(options)) && Elements(Names(options)) == OptionNames(options)
  {
    if options != [] {
      var init, last := options[..|options| - 1], options[|options| - 1];
      assert options == init + [last];
      NamesAreTheSortedSet(init);
      OptionNamesSnoc(init, last);
      InsertKeepsSortedSet(Names(init), OptionName(last));
    }
  }

  // A strictly sorted list is determined by its elements.
  lemma {:induction false} SortedIsUnique(a: seq<string>, b: seq<string>)
    requires Sorted(a) && Sorted(b) && Elements(a) == Elements(b)
    ensures a == b
  {
    EmptyElements(a);
    EmptyElements(b);
    if a != [] {
      assert a[0] in Elements(a) && b[0] in Elements(b);
      HeadIsLeast(a, b[0]);
      HeadIsLeast(b, a[0]);
      LessTotal(a[0], b[0]);
      TailElements(a);
      TailElements(b);
      SortedIsUnique(a[1..], b[1..]);
      assert a == [a[0]] + a[1..] && b == [b[0]] + b[1..];
    }
  }

  lemma EmptyElements(a: seq<string>)
    ensures a == [] <==> Elements(a) == {}
  {
    if a != [] { assert a[0] in Elements(a); }
  }

  lemma HeadIsLeast(a: seq<string>, x: string)
    requires Sorted(a) && x in Elements(a)
    ensures x == a[0] || Less(a[0], x)
  {}

  lemma TailElements(a: seq<string>)
    requires Sorted(a) && a != []
    ensures Sorted(a[1..]) && Elements(a[1..]) == Elements(a) - {a[0]}
  {
    assert a == [a[0]] + a[1..];
    ElementsCons(a[0], a[1..]);
    LessTotal(a[0], a[0]);
    forall i | 0 <= i < |a[1..]| ensures a[1..][i] != a[0] {
      assert Less(a[0], a[i + 1]);
    }
  }

  function JoinNames(names: seq<string>): string {
    if names == [] then "" else if |names| == 1 then names[0] else names[0] + ", " + JoinNames(names[1..])
  }

  // Splits a text at every comma that a blank follows.
  function SplitNames(s: string): (names: seq<string>)
    ensures names != []
  {
    if s == "" then [""]
    else if |s| >= 2 && s[0] == ',' && s[1] == ' ' then [""] + SplitNames(s[2..])
    else var rest := SplitNames(s[1..]); [[s[0]] + rest[0]] + rest[1..]
  }

  lemma {:induction false} SplitsAfterName(name: string, more: string)
    requires ',' !in name
    ensures SplitNames(name) == [name]
    ensures SplitNames(name + ", " + more) == [name] + SplitNames(more)
  {
    var s := name + ", " + more;
    if name == "" {
      assert s[2..] == more;
    } else {
      assert s[1..] == name[1..] + ", " + more;
      SplitsAfterName(name[1..], more);
      assert [name[0]] + name[1..] == name;
    }
  }

  // The joined report reads back as its names, if none of them holds a comma.
  lemma {:induction false} JoinReadsBack(names: seq<string>)
    requires names != [] && forall i :: 0 <= i < |names| ==> ',' !in names[i]
    ensures SplitNames(JoinNames(names)) == names
  {
    if |names| == 1 {
      SplitsAfterName(names[0], "");
    } else {
      JoinReadsBack(names[1..]);
      SplitsAfterName(names[0], JoinNames(names[1..]));
      assert names == [names[0]] + names[1..];
    }
  }

  // The report depends on the set of option names only: not on the order, the repetition
  // or the values of the options.
  lemma UnknownReportIsCanonical(options: seq<string>, others: seq<string>)
    requires OptionNames(options) == OptionNames(others)
    ensures JoinNames(Names(options)) == JoinNames(Names(others))
  {
    NamesAreTheSortedSet(options);
    NamesAreTheSortedSet(others);
    SortedIsUnique(Names(options), Names(others));
  }

  // --- Layers ---------------------------------------------------------------

  // The value that counts for one name, by precedence.
  function Layered(p: Parsed, environment: map<string, string>, name: string): Option<string> {
    if name in p.providedFlags then Some(p.providedFlags[name])
    else if name == COMMAND_KEY then None
    else if name in p.dotenvOverrides then Some(p.dotenvOverrides[name])
    else if name in environment then Some(environment[name])
    else if name in p.dotenv then Some(p.dotenv[name])
    else None
  }

  function Lookup(m: map<string, string>, name: string): Option<string> {
    if name in m then Some(m[name]) else None
  }

  ghost predicate IsLayering(p: Parsed, environment: map<string, string>, raw: map<string, string>) {
    forall name :: Lookup(raw, name) == Layered(p, environment, name)
  }

  // The overlays in order: environment over dotenv, overrides over both, the command key
  // dropped, flags over everything.
  lemma OverlaysAreLayers(p: Parsed, environment: map<string, string>)
    ensures IsLayering(p, environment,
                       p.dotenv + environment + p.dotenvOverrides - {COMMAND_KEY} + p.providedFlags)
  {
    var raw := p.dotenv + environment + p.dotenvOverrides - {COMMAND_KEY} + p.providedFlags;
    forall name ensures Lookup(raw, name) == Layered(p, environment, name) {
      assert name in raw <==>
        (name in p.providedFlags
         || (name != COMMAND_KEY && (name in p.dotenvOverrides || name in environment || name in p.dotenv)));
    }
  }

  lemma LayeringIsUnique(p: Parsed, environment: map<string, string>, a: map<string, string>, b: map<string, string>)
    requires IsLayering(p, environment, a) && IsLayering(p, environment, b)
    ensures a == b
  {
    forall name ensures (name in a <==> name in b) && (name in a ==> a[name] == b[name]) {
      assert Lookup(a, name) == Lookup(b, name);
    }
  }

  function ScalarString(name: string, v: Value): Result<string, Failure> {
    match v
    case Text(t) => Ok(t)
    case Bool(b) => Ok(if b then "true" else "false")
    case Number(t) => Ok(t)
    case _ => Err(NonScalar(name))
  }

  // Exactly text, numbers and truth values are scalars, and what they become.
  lemma ScalarExactly(name: string, v: Value, text: string, f: Failure)
    ensures ScalarString(name, v) == Ok(text)
            <==> v in {Text(text), Number(text)} || (v, text) in {(Bool(true), "true"), (Bool(false), "false")}
    ensures ScalarString(name, v) == Err(f) <==> v in {Null, Composite} && f == NonScalar(name)
  {}

  predicate DistinctNames(typed: seq<(string, Value)>) {
    forall i, j :: 0 <= i < j < |typed| ==> typed[i].0 != typed[j].0
  }

  predicate Harmless(v: Value) { !v.Composite? }

  // Every name has its coerced scalar, or else its original environment value.
  ghost predicate Resolves(environment: map<string, string>, typed: seq<(string, Value)>, m: map<string, string>) {
    && (forall i :: 0 <= i < |typed| && !typed[i].1.Null? ==>
          ScalarString(typed[i].0, typed[i].1).Ok?
          && Lookup(m, typed[i].0) == Some(ScalarString(typed[i].0, typed[i].1).value))
    && forall name :: (forall i :: 0 <= i < |typed| && typed[i].0 == name ==> typed[i].1.Null?) ==>
         Lookup(m, name) == Lookup(environment, name)
  }

  // The outcome: the first fail-closed check that applies, then coercion, then scalars.
  ghost predicate Outcome(p: Parsed, environment: map<string, string>, coerce: Coercion,
                          r: Result<map<string, string>, Failure>) {
    if p.unknownOptions != [] then r == Err(UnknownOptions(JoinNames(Names(p.unknownOptions))))
    else if p.errors != 0 then r == Err(InvalidValues(p.errors))
    else if p.extras != 0 then r == Err(UnexpectedArguments(p.extras))
    else exists raw :: IsLayering(p, environment, raw) && CoercedOutcome(environment, coerce(raw), r)
  }

  ghost predicate CoercedOutcome(environment: map<string, string>, coerced: Option<seq<(string, Value)>>,
                                 r: Result<map<string, string>, Failure>) {
    match coerced
    case None => r == Err(CoercionFailed)
    case Some(typed) =>
      match r
      case Ok(m) => (forall i :: 0 <= i < |typed| ==> Harmless(typed[i].1)) && Resolves(environment, typed, m)
      case Err(e) => exists i :: FirstComposite(typed, i) && e == NonScalar(typed[i].0)
  }

  predicate FirstComposite(typed: seq<(string, Value)>, i: int) {
    0 <= i < |typed| && typed[i].1.Composite? && forall j :: 0 <= j < i ==> !typed[j].1.Composite?
  }

  // The coercion yields each name once, as a map does.
  ghost predicate YieldsMaps(coerce: Coercion) {
    forall raw :: coerce(raw).Some? ==> DistinctNames(coerce(raw).value)
  }

  class Overlay {
    var entries: map<string, string>

    constructor (entries: map<string, string>)
      ensures this.entries == entries
    {
      this.entries := entries;
    }

    method Extend(more: map<string, string>)
      modifies this
      ensures entries == old(entries) + more
    {
      entries := entries + more;
    }

    method Remove(name: string)
      modifies this
      ensures entries == old(entries) - {name}
    {
      entries := entries - {name};
    }

    method Insert(name: string, value: string)
      modifies this
      ensures entries == old(entries)[name := value]
    {
      entries := entries[name := value];
    }
  }

  method Resolve(p: Parsed, environment: map<string, string>, coerce: Coercion)
    returns (r: Result<map<string, string>, Failure>)
    requires YieldsMaps(coerce)
    ensures Outcome(p, environment, coerce, r)
  {
    if p.unknownOptions != [] { return Err(UnknownOptions(JoinNames(Names(p.unknownOptions)))); }
    if p.errors != 0 { return Err(InvalidValues(p.errors)); }
    if p.extras != 0 { return Err(UnexpectedArguments(p.extras)); }
    var raw := new Overlay(p.dotenv);
    raw.Extend(environment);
    raw.Extend(p.dotenvOverrides);
    raw.Remove(COMMAND_KEY);
    raw.Extend(p.providedFlags);
    OverlaysAreLayers(p, environment);
    var typed := coerce(raw.entries);
    if typed.None? { return Err(CoercionFailed); }
    r := InsertScalars(environment, typed.value);
  }

  // The final loop, over the coerced entries in any order.
  method InsertScalars(environment: map<string, string>, typed: seq<(string, Value)>)
    returns (r: Result<map<string, string>, Failure>)
    requires DistinctNames(typed)
    ensures CoercedOutcome(environment, Some(typed), r)
  {
    var resolved := new Overlay(environment);
    for k := 0 to |typed|
      invariant forall i :: 0 <= i < k ==> Harmless(typed[i].1)
      invariant Resolves(environment, typed[..k], resolved.entries)
    {
      var (name, value) := typed[k];
      ghost var before := resolved.entries;
      if !value.Null? {
        var text := ScalarString(name, value);
        if text.Err? {
          assert FirstComposite(typed, k);
          return Err(text.error);
        }
        resolved.Insert(name, text.value);
      }
      ResolvesSnoc(environment, typed, k, before, resolved.entries);
    }
    assert typed[..|typed|] == typed;
    r := Ok(resolved.entries);
  }

  lemma ResolvesSnoc(environment: map<string, string>, typed: seq<(string, Value)>, k: nat,
                     before: map<string, string>, after: map<string, string>)
    requires k < |typed| && DistinctNames(typed) && Resolves(environment, typed[..k], before)
    requires Harmless(typed[k].1)
    requires after == if typed[k].1.Null? then before
                      else before[typed[k].0 := ScalarString(typed[k].0, typed[k].1).value]
    ensures Resolves(environment, typed[..k + 1], after)
  {
    var more := typed[..k + 1];
    forall i | 0 <= i < |more| && !more[i].1.Null?
      ensures ScalarString(more[i].0, more[i].1).Ok?
              && Lookup(after, more[i].0) == Some(ScalarString(more[i].0, more[i].1).value)
    {
      if i < k { assert typed[..k][i] == more[i]; }
    }
    forall name | forall i :: 0 <= i < |more| && more[i].0 == name ==> more[i].1.Null?
      ensures Lookup(after, name) == Lookup(environment, name)
    {
      forall i | 0 <= i < |typed[..k]| && typed[..k][i].0 == name ensures typed[..k][i].1.Null? {
        assert more[i] == typed[..k][i];
      }
      assert more[k] == typed[k];
    }
  }

  // The order in which the coerced entries are visited does not matter to a success.
  lemma OrderIsIrrelevant(environment: map<string, string>, typed: seq<(string, Value)>,
                          shuffled: seq<(string, Value)>, a: map<string, string>, b: map<string, string>)
    requires forall x :: x in typed <==> x in shuffled
    requires Resolves(environment, typed, a) && Resolves(environment, shuffled, b)
    ensures a == b
  {
    forall name ensures Lookup(a, name) == Lookup(b, name) {
      if i :| 0 <= i < |typed| && typed[i].0 == name && !typed[i].1.Null? {
        assert typed[i] in shuffled;
        var j :| 0 <= j < |shuffled| && shuffled[j] == typed[i];
        assert Lookup(a, name) == Lookup(b, name);
      } else {
        forall j | 0 <= j < |shuffled| && shuffled[j].0 == name ensures shuffled[j].1.Null? {
          assert shuffled[j] in typed;
        }
      }
    }
    forall name ensures (name in a <==> name in b) && (name in a ==> a[name] == b[name]) {
      assert Lookup(a, name) == Lookup(b, name);
    }
  }

  // --- The command key ------------------------------------------------------

  // The coercion gives no scalar to a name that its input lacks.
  ghost predicate AddsNoNames(coerce: Coercion) {
    forall raw :: coerce(raw).Some? ==> NamesFrom(raw, coerce(raw).value)
  }

  predicate NamesFrom(raw: map<string, string>, typed: seq<(string, Value)>) {
    forall i :: 0 <= i < |typed| && !typed[i].1.Null? ==> typed[i].0 in raw
  }

  // The coercion passes the command key on as it is.
  ghost predicate KeepsCommand(coerce: Coercion) {
    forall raw :: coerce(raw).Some? && COMMAND_KEY in raw ==>
      (COMMAND_KEY, Text(raw[COMMAND_KEY])) in coerce(raw).value
  }

  // The overlay drops the command key of every layer below the flags, but the result starts
  // from the environment: the resolved command is the flag's exactly when there is such a
  // flag, or no such environment variable.
  lemma CommandKeyExactly(p: Parsed, environment: map<string, string>, coerce: Coercion, m: map<string, string>)
    requires Outcome(p, environment, coerce, Ok(m)) && AddsNoNames(coerce) && KeepsCommand(coerce)
    ensures Lookup(m, "FLAGS2ENV_COMMAND")
            == if "FLAGS2ENV_COMMAND" in p.providedFlags then Some(p.providedFlags["FLAGS2ENV_COMMAND"])
               else Lookup(environment, "FLAGS2ENV_COMMAND")
    ensures Lookup(m, "FLAGS2ENV_COMMAND") == Lookup(p.providedFlags, "FLAGS2ENV_COMMAND")
            <==> "FLAGS2ENV_COMMAND" in p.providedFlags || "FLAGS2ENV_COMMAND" !in environment
  {
    var raw :| IsLayering(p, environment, raw) && CoercedOutcome(environment, coerce(raw), Ok(m));
    var typed := coerce(raw).value;
    assert Lookup(raw, COMMAND_KEY) == Lookup(p.providedFlags, COMMAND_KEY);
    if COMMAND_KEY in raw {
      var i :| 0 <= i < |typed| && typed[i] == (COMMAND_KEY, Text(raw[COMMAND_KEY]));
      assert Lookup(m, typed[i].0) == Some(raw[COMMAND_KEY]);
    } else {
      assert NamesFrom(raw, typed);
      assert forall i :: 0 <= i < |typed| && typed[i].0 == COMMAND_KEY ==> typed[i].1.Null?;
    }
  }

  // A coercion that passes the command key on and nothing else.
  function CommandOnly(raw: map<string, string>): Option<seq<(string, Value)>> {
    Some(if COMMAND_KEY in raw then [(COMMAND_KEY, Text(raw[COMMAND_KEY]))] else [])
  }

  // The other case exists: a command that only the environment sets is resolved.
  lemma EnvironmentCommandSurvives(command: string)
    ensures var (p, environment) := (Parsed([], 0, 0, map[], map[], map[]), map["FLAGS2ENV_COMMAND" := command]);
            && YieldsMaps(CommandOnly) && AddsNoNames(CommandOnly) && KeepsCommand(CommandOnly)
            && Outcome(p, environment, CommandOnly, Ok(environment))
            && Lookup(environment, "FLAGS2ENV_COMMAND") == Some(command)
            && Lookup(p.providedFlags, "FLAGS2ENV_COMMAND") == None
  {
    var p, environment := Parsed([], 0, 0, map[], map[], map[]), map[COMMAND_KEY := command];
    var raw := p.dotenv + environment + p.dotenvOverrides - {COMMAND_KEY} + p.providedFlags;
    OverlaysAreLayers(p, environment);
    assert COMMAND_KEY !in raw;
    assert CommandOnly(raw) == Some([]);
    assert CoercedOutcome(environment, CommandOnly(raw), Ok(environment));
  }
}
