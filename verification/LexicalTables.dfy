/** The generated lexical tables: run-length ranges over code points, searched by bisection.

    What the generator enumerates is any predicate or property of code points.  The emitted
    tables are sorted, disjoint and maximal, and the emitted lookups return exactly what the
    generator saw, for every code point. */
module LexicalTables {
  import opened Wrappers

  const MAX_RUNE: nat := 0x10FFFF

  /** A run of code points with one value. */
  datatype Run<T> = Run(first: nat, last: nat, value: T)

  ghost predicate Ordered<T>(runs: seq<Run<T>>) {
    && (forall i :: 0 <= i < |runs| ==> runs[i].first <= runs[i].last)
    && (forall i, j :: 0 <= i < j < |runs| ==> runs[i].last < runs[j].first)
  }

  /** Runs that touch have different values: none could be longer. */
  ghost predicate Maximal<T>(runs: seq<Run<T>>) {
    forall i, j :: 0 <= i < j < |runs| && runs[i].last + 1 == runs[j].first ==> runs[i].value != runs[j].value
  }

  ghost predicate Within<T>(runs: seq<Run<T>>, cp: nat) {
    exists i :: 0 <= i < |runs| && runs[i].first <= cp <= runs[i].last
  }

  /** The runs give `f` on all code points below `n`, and end below `n`. */
  ghost predicate Gives<T>(runs: seq<Run<T>>, f: nat -> Option<T>, n: nat) {
    && (forall i :: 0 <= i < |runs| ==> runs[i].last < n)
    && (forall i, cp :: 0 <= i < |runs| && runs[i].first <= cp <= runs[i].last ==> f(cp) == Some(runs[i].value))
    && (forall cp: nat :: cp < n && f(cp).Some? ==> Within(runs, cp))
  }

  /** A table for `f` on the code points below `n`. */
  ghost predicate Table<T>(runs: seq<Run<T>>, f: nat -> Option<T>, n: nat) {
    Ordered(runs) && Maximal(runs) && Gives(runs, f, n)
  }

  lemma {:induction false} WithinMore<T>(runs: seq<Run<T>>, run: Run<T>, cp: nat)
    ensures Within(runs + [run], cp) <==> Within(runs, cp) || run.first <= cp <= run.last
  {
    var more := runs + [run];
    assert more[|runs|] == run;
    if Within(runs, cp) {
      var i :| 0 <= i < |runs| && runs[i].first <= cp <= runs[i].last;
      assert more[i] == runs[i];
    }
  }

  /** Appending a run that starts at `n`, has one value and cannot be joined to the one before. */
  lemma {:induction false} TableMore<T>(runs: seq<Run<T>>, f: nat -> Option<T>, n: nat, run: Run<T>)
    requires Table(runs, f, n) && run.first == n <= run.last
    requires forall cp :: n <= cp <= run.last ==> f(cp) == Some(run.value)
    requires runs != [] && runs[|runs| - 1].last + 1 == n ==> runs[|runs| - 1].value != run.value
    ensures Table(runs + [run], f, run.last + 1)
  {
    var more := runs + [run];
    forall cp: nat | cp < run.last + 1 && f(cp).Some? ensures Within(more, cp) {
      WithinMore(runs, run, cp);
      if cp < n { assert Within(runs, cp); }
    }
    assert forall i :: 0 <= i < |runs| ==> more[i] == runs[i];
    assert forall i :: 0 <= i < |runs| - 1 ==> runs[i].last < runs[|runs| - 1].first;
    hide Within;
  }

  /** Code points without a value extend the table without a run. */
  lemma {:induction false} TableSkips<T>(runs: seq<Run<T>>, f: nat -> Option<T>, n: nat, m: nat)
    requires Table(runs, f, n) && n <= m && forall cp :: n <= cp < m ==> f(cp).None?
    ensures Table(runs, f, m)
  {
    hide Within;
  }

  // ---------------------------------------------------------------- Unicode letters

  function Marks(letter: nat -> bool): nat -> Option<()> {
    (cp: nat) => if cp <= MAX_RUNE && letter(cp) then Some(()) else None
  }

  /** renderLetterRanges: the loop runs one past the largest code point to close a run there. */
  method RenderLetterRanges(letter: nat -> bool) returns (runs: seq<Run<()>>)
    ensures Table(runs, Marks(letter), MAX_RUNE + 1)
  {
    hide Gives, Ordered, Maximal;
    ghost var f := Marks(letter);
    runs := [];
    var inRange, start := false, 0;
    Nothing<()>(f);
    for cp := 0 to MAX_RUNE + 2
      invariant Table(runs, f, if inRange then start else cp) || (cp == MAX_RUNE + 2 && Table(runs, f, MAX_RUNE + 1))
      invariant inRange ==> start < cp <= MAX_RUNE + 1 && forall c :: start <= c < cp ==> f(c).Some?
      invariant inRange && runs != [] ==> runs[|runs| - 1].last + 1 < start
      invariant !inRange && runs != [] ==> runs[|runs| - 1].last + 1 < cp
      invariant cp == MAX_RUNE + 2 ==> !inRange && Table(runs, f, MAX_RUNE + 1)
    {
      var isLetter := cp <= MAX_RUNE && letter(cp);
      if isLetter && !inRange {
        start, inRange := cp, true;
      }
      if !isLetter && inRange {
        TableMore(runs, f, start, Run(start, cp - 1, ()));
        if cp <= MAX_RUNE { TableSkips(runs + [Run(start, cp - 1, ())], f, cp, cp + 1); }
        runs := runs + [Run(start, cp - 1, ())];
        inRange := false;
      } else if !isLetter && cp <= MAX_RUNE {
        TableSkips(runs, f, cp, cp + 1);
      }
    }
  }

  lemma {:induction false} Nothing<T>(f: nat -> Option<T>)
    ensures Table<T>([], f, 0)
  {
  }

  // ---------------------------------------------------------------- normalization properties

  datatype Properties = Properties(lead: nat, trail: nat)

  predicate ValidRune(cp: nat) { cp <= MAX_RUNE && !(0xD800 <= cp <= 0xDFFF) }

  function NonZero(props: nat -> Properties): nat -> Option<Properties> {
    (cp: nat) => if ValidRune(cp) && props(cp) != Properties(0, 0) then Some(props(cp)) else None
  }

  /** What is open between two flushes. */
  ghost predicate OpenRun(
      runs: seq<Run<Properties>>, f: nat -> Option<Properties>, cp: nat, first: nat, last: nat, previous: Properties) {
    if first <= last then
      && last + 1 == cp && Table(runs, f, first)
      && (forall c :: first <= c <= last ==> f(c) == Some(previous))
      && (runs != [] && runs[|runs| - 1].last + 1 == first ==> runs[|runs| - 1].value != previous)
    else
      Table(runs, f, cp) && (cp > 0 ==> f(cp - 1).None?)
  }

  function Flushed(runs: seq<Run<Properties>>, first: nat, last: nat, previous: Properties): seq<Run<Properties>> {
    if first <= last then runs + [Run(first, last, previous)] else runs
  }

  lemma {:induction false} FlushGives(
      runs: seq<Run<Properties>>, f: nat -> Option<Properties>, cp: nat, first: nat, last: nat, previous: Properties)
    requires OpenRun(runs, f, cp, first, last, previous)
    ensures
      var flushed := Flushed(runs, first, last, previous);
      && Table(flushed, f, cp)
      && (flushed != [] && flushed[|flushed| - 1].last + 1 == cp ==> f(cp - 1) == Some(flushed[|flushed| - 1].value))
  {
    if first <= last {
      TableMore(runs, f, first, Run(first, last, previous));
    } else {
      assert runs != [] ==> f(runs[|runs| - 1].last).Some?;
    }
  }

  /** A code point without properties closes the run. */
  lemma {:induction false} ClosesRun(
      runs: seq<Run<Properties>>, f: nat -> Option<Properties>, cp: nat, first: nat, last: nat, previous: Properties)
    requires OpenRun(runs, f, cp, first, last, previous) && f(cp).None?
    ensures OpenRun(Flushed(runs, first, last, previous), f, cp + 1, 1, 0, previous)
  {
    FlushGives(runs, f, cp, first, last, previous);
    TableSkips(Flushed(runs, first, last, previous), f, cp, cp + 1);
  }

  /** One with other properties starts a new run. */
  lemma {:induction false} StartsRun(
      runs: seq<Run<Properties>>, f: nat -> Option<Properties>, cp: nat, first: nat, last: nat, previous: Properties)
    requires OpenRun(runs, f, cp, first, last, previous) && f(cp).Some? && (first <= last ==> f(cp).value != previous)
    ensures OpenRun(Flushed(runs, first, last, previous), f, cp + 1, cp, cp, f(cp).value)
  {
    FlushGives(runs, f, cp, first, last, previous);
    hide Table;
  }

  method RenderNormProperties(props: nat -> Properties) returns (runs: seq<Run<Properties>>)
    ensures Table(runs, NonZero(props), MAX_RUNE + 1)
  {
    ghost var f := NonZero(props);
    hide Table, Flushed;
    runs := [];
    var first, last, previous := 1, 0, Properties(0, 0);
    Nothing<Properties>(f);
    for cp := 0 to MAX_RUNE + 1
      invariant OpenRun(runs, f, cp, first, last, previous)
    {
      if !ValidRune(cp) || props(cp) == Properties(0, 0) {
        ClosesRun(runs, f, cp, first, last, previous);
        runs := Flushed(runs, first, last, previous);
        first, last := 1, 0;
        continue;
      }
      if first <= last && cp == last + 1 && props(cp) == previous {
        last := cp;
        continue;
      }
      StartsRun(runs, f, cp, first, last, previous);
      runs := Flushed(runs, first, last, previous);
      first, last, previous := cp, cp, props(cp);
    }
    FlushGives(runs, f, MAX_RUNE + 1, first, last, previous);
    runs := Flushed(runs, first, last, previous);
  }

  // ---------------------------------------------------------------- the emitted lookups

  /** partition_point on the starts, then one comparison. */
  method Find<T>(runs: seq<Run<T>>, cp: nat) returns (r: Option<T>)
    requires Ordered(runs)
    ensures r.Some? ==> exists i :: 0 <= i < |runs| && runs[i].first <= cp <= runs[i].last && r.value == runs[i].value
    ensures r.None? ==> !Within(runs, cp)
  {
    var low, high := 0, |runs|;
    while low < high
      invariant 0 <= low <= high <= |runs|
      invariant forall i :: 0 <= i < low ==> runs[i].first <= cp
      invariant forall i :: high <= i < |runs| ==> runs[i].first > cp
    {
      var mid := (low + high) / 2;
      if runs[mid].first <= cp { low := mid + 1; } else { high := mid; }
    }
    if low > 0 && cp <= runs[low - 1].last {
      r := Some(runs[low - 1].value);
    } else {
      r := None;
    }
  }

  /** is_letter over the emitted table is the generator's predicate, for every code point. */
  method IsLetter(letter: nat -> bool, runs: seq<Run<()>>, cp: nat) returns (r: bool)
    requires Table(runs, Marks(letter), MAX_RUNE + 1) && cp <= MAX_RUNE
    ensures r == letter(cp)
  {
    var found := Find(runs, cp);
    assert Marks(letter)(cp).Some? <==> letter(cp);
    assert Marks(letter)(cp).Some? ==> Within(runs, cp);
    r := found.Some?;
  }

  /** leading_trailing over the emitted table returns the generator's values for every valid
      code point; surrogates have no entry. */
  method LeadingTrailing(props: nat -> Properties, runs: seq<Run<Properties>>, cp: nat) returns (r: Properties)
    requires Table(runs, NonZero(props), MAX_RUNE + 1) && cp <= MAX_RUNE
    ensures r == if ValidRune(cp) then props(cp) else Properties(0, 0)
  {
    var found := Find(runs, cp);
    assert NonZero(props)(cp).Some? ==> Within(runs, cp);
    r := if found.Some? then found.value else Properties(0, 0);
  }
}
