/** The lexical analyzer: stream-safe insertion and the term scanner.

    Canonical composition between the two is not modelled; the scanner works on any text.  The
    tables enter as functions of a character. */
module Analyzer {
  import opened Wrappers

  // ---------------------------------------------------------------- stream-safe insertion

  const CGJ: char := '\U{034F}'
  const LIMIT: nat := 30

  /** Leading and trailing non-starters of a character, from the generated table. */
  datatype Properties = Properties(lead: nat, trail: nat)

  type Table = char -> Properties

  /** The counter after a character. */
  function Count(table: Table, n: nat, ch: char): nat {
    if table(ch).lead == 0 then table(ch).trail else n + table(ch).lead
  }

  /** stream_safe_like_go from a counter value. */
  function Safe(table: Table, text: string, n: nat): string {
    if text == [] then []
    else if n + table(text[0]).lead > LIMIT then [CGJ, text[0]] + Safe(table, text[1..], Count(table, 0, text[0]))
    else [text[0]] + Safe(table, text[1..], Count(table, n, text[0]))
  }

  /** The counter never passes the limit. */
  predicate Bounded(table: Table, text: string, n: nat) {
    text == [] || (n + table(text[0]).lead <= LIMIT && Bounded(table, text[1..], Count(table, n, text[0])))
  }

  /** `out` is `text` with joiners inserted. */
  predicate Inserted(text: string, out: string) {
    if out == [] then text == []
    else
      || (text != [] && out[0] == text[0] && Inserted(text[1..], out[1..]))
      || (out[0] == CGJ && Inserted(text, out[1..]))
  }

  lemma {:induction false} SafeStep(table: Table, text: string, i: nat, n: nat)
    requires i < |text|
    ensures
      var ch, full := text[i], n + table(text[i]).lead > LIMIT;
      Safe(table, text[i..], n)
      == (if full then [CGJ, ch] else [ch]) + Safe(table, text[i + 1..], Count(table, if full then 0 else n, ch))
  {
    assert text[i..][0] == text[i] && text[i..][1..] == text[i + 1..];
  }

  method StreamSafe(table: Table, text: string) returns (output: string)
    ensures output == Safe(table, text, 0)
  {
    hide Safe;
    output := [];
    var nonstarters: nat := 0;
    assert text[0..] == text && output + Safe(table, text, 0) == Safe(table, text, 0);
    for i := 0 to |text|
      invariant Safe(table, text, 0) == output + Safe(table, text[i..], nonstarters)
    {
      var ch := text[i];
      SafeStep(table, text, i, nonstarters);
      ghost var before := output;
      if nonstarters + table(ch).lead > LIMIT {
        output := output + [CGJ];
        nonstarters := 0;
        assert before + [CGJ, ch] == output + [ch];
      }
      output := output + [ch];
      nonstarters := if table(ch).lead == 0 then table(ch).trail else nonstarters + table(ch).lead;
    }
    assert text[|text|..] == [];
    assert Safe(table, [], nonstarters) == [] by { SafeEmpty(table, nonstarters); }
  }

  lemma {:induction false} SafeEmpty(table: Table, n: nat)
    ensures Safe(table, [], n) == []
  {
  }

  /** Nothing but joiners is added, and nothing is removed or moved. */
  lemma {:induction false} OnlyInserts(table: Table, text: string, n: nat)
    ensures Inserted(text, Safe(table, text, n))
  {
    if text != [] {
      var ch, rest := text[0], text[1..];
      if n + table(ch).lead > LIMIT {
        var tail := Safe(table, rest, Count(table, 0, ch));
        OnlyInserts(table, rest, Count(table, 0, ch));
        var out := Safe(table, text, n);
        assert out[1..] == [ch] + tail && ([ch] + tail)[1..] == tail;
        assert Inserted(text, out[1..]);
      } else {
        OnlyInserts(table, rest, Count(table, n, ch));
        assert Safe(table, text, n)[1..] == Safe(table, rest, Count(table, n, ch));
      }
    }
  }

  /** The text is unchanged exactly when the counter never passes the limit. */
  lemma {:induction false} UnchangedIffBounded(table: Table, text: string, n: nat)
    ensures Safe(table, text, n) == text <==> Bounded(table, text, n)
    ensures |Safe(table, text, n)| >= |text|
  {
    if text != [] {
      var ch, rest := text[0], text[1..];
      assert text == [ch] + rest;
      if n + table(ch).lead > LIMIT {
        UnchangedIffBounded(table, rest, Count(table, 0, ch));
      } else {
        UnchangedIffBounded(table, rest, Count(table, n, ch));
        assert Safe(table, text, n)[1..] == Safe(table, rest, Count(table, n, ch));
      }
    }
  }

  /** What the frozen table satisfies: leads within the limit, two bits of trail, and a joiner
      that counts nothing. */
  ghost predicate Frozen(table: Table) {
    (forall c :: table(c).lead <= LIMIT && table(c).trail <= 3) && table(CGJ) == Properties(0, 0)
  }

  /** The counter of the result stays within the limit; no addition can overflow a byte. */
  lemma {:induction false} SafeIsBounded(table: Table, text: string, n: nat)
    requires Frozen(table) && n <= LIMIT
    ensures Bounded(table, Safe(table, text, n), n)
  {
    if text != [] {
      var ch, rest := text[0], text[1..];
      if n + table(ch).lead > LIMIT {
        var tail := Safe(table, rest, Count(table, 0, ch));
        SafeIsBounded(table, rest, Count(table, 0, ch));
        var out := Safe(table, text, n);
        assert out[1..] == [ch] + tail && ([ch] + tail)[1..] == tail;
        assert Count(table, n, CGJ) == 0;
        assert Bounded(table, [ch] + tail, 0);
      } else {
        SafeIsBounded(table, rest, Count(table, n, ch));
        assert Safe(table, text, n)[1..] == Safe(table, rest, Count(table, n, ch));
      }
    }
  }

  /** Applying it again changes nothing. */
  lemma {:induction false} SafeIsIdempotent(table: Table, text: string)
    requires Frozen(table)
    ensures Safe(table, Safe(table, text, 0), 0) == Safe(table, text, 0)
  {
    SafeIsBounded(table, text, 0);
    UnchangedIffBounded(table, Safe(table, text, 0), 0);
  }

  /** The non-starters in front of position `i`: the trailing ones of the last starter and the leading
      ones of everything after it. */
  function NonStarters(table: Table, text: string, i: nat): nat
    requires i <= |text|
  {
    if i == 0 then 0
    else if table(text[i - 1]).lead == 0 then table(text[i - 1]).trail
    else NonStarters(table, text, i - 1) + table(text[i - 1]).lead
  }

  lemma {:induction false} CountsRun(table: Table, text: string, i: nat)
    requires i < |text|
    ensures Count(table, NonStarters(table, text, i), text[i]) == NonStarters(table, text, i + 1)
  {
  }

  lemma {:induction false} BoundedFrom(table: Table, text: string, i: nat)
    requires i <= |text|
    ensures Bounded(table, text[i..], NonStarters(table, text, i))
      <==> forall j :: i <= j < |text| ==> NonStarters(table, text, j) + table(text[j]).lead <= 30
    decreases |text| - i
  {
    if i < |text| {
      BoundedFrom(table, text, i + 1);
      CountsRun(table, text, i);
      assert text[i..][0] == text[i] && text[i..][1..] == text[i + 1..];
      hide NonStarters;
    }
  }

  /** A text is left alone exactly when no character has more than thirty non-starters up to it. */
  lemma {:induction false} UnchangedExactly(table: Table, text: string)
    ensures Safe(table, text, 0) == text
      <==> forall j :: 0 <= j < |text| ==> NonStarters(table, text, j) + table(text[j]).lead <= 30
  {
    BoundedFrom(table, text, 0);
    assert text[0..] == text;
    UnchangedIffBounded(table, text, 0);
  }

  /** A higher counter costs at most one joiner more. */
  lemma {:induction false} OneMoreJoiner(table: Table, text: string, n: nat, m: nat)
    requires Frozen(table) && n <= m <= LIMIT
    ensures |Safe(table, text, n)| <= |Safe(table, text, m)| <= |Safe(table, text, n)| + 1
  {
    if text != [] {
      var ch, rest := text[0], text[1..];
      var lead := table(ch).lead;
      if lead > 0 {
        if m + lead <= LIMIT {
          OneMoreJoiner(table, rest, n + lead, m + lead);
        } else if n + lead <= LIMIT {
          OneMoreJoiner(table, rest, lead, n + lead);
        }
      }
    }
  }

  /** Whatever way joiners are inserted to keep the counter within the limit, it takes as many. */
  lemma {:induction false} FewestJoiners(table: Table, text: string, out: string, n: nat)
    requires Frozen(table) && n <= LIMIT && Inserted(text, out) && Bounded(table, out, n)
    ensures |Safe(table, text, n)| <= |out|
    decreases |out|
  {
    if text != [] && out != [] {
      if out[0] == text[0] && Inserted(text[1..], out[1..]) {
        FewestJoiners(table, text[1..], out[1..], Count(table, n, out[0]));
      } else {
        FewestJoiners(table, text, out[1..], 0);
        OneMoreJoiner(table, text, 0, n);
      }
    }
  }

  // ---------------------------------------------------------------- the term scanner

  const MAX_TERM_BYTES: nat := 256
  const MAX_TERMS: nat := 100_000

  datatype Result<T> = Ok(value: T) | TermTooLong | TooManyTerms

  /** The letter table and the encoded size of a character. */
  datatype Alphabet = Alphabet(letter: char -> bool, size: char -> nat)

  predicate Digit(c: char) { '0' <= c <= '9' }

  predicate Upper(c: char) { 'A' <= c <= 'Z' }

  function Lower(c: char): char { if Upper(c) then (c as int + 32) as char else c }

  /** What the letter table says about ASCII. */
  ghost predicate AsciiLetters(a: Alphabet) {
    && !a.letter('-') && !a.letter('/') && !a.letter('\n')
    && (forall c :: Upper(c) ==> a.letter(c) && a.letter(Lower(c)))
  }

  function Size(a: Alphabet, s: string): nat {
    if s == [] then 0 else Size(a, s[..|s| - 1]) + a.size(s[|s| - 1])
  }

  predicate Is(f: char -> bool, c: Option<char>) { c.Some? && f(c.value) }

  predicate IsDigit(c: Option<char>) { c.Some? && Digit(c.value) }

  /** A hyphen stays between letters, a slash between digits. */
  predicate KeepsSeparator(a: Alphabet, ch: char, previous: Option<char>, next: Option<char>) {
    || (ch == '-' && Is(a.letter, previous) && Is(a.letter, next))
    || (ch == '/' && IsDigit(previous) && IsDigit(next))
  }

  predicate Keeps(a: Alphabet, ch: char, previous: Option<char>, next: Option<char>) {
    a.letter(ch) || Digit(ch) || KeepsSeparator(a, ch, previous, next)
  }

  function Head(text: string): Option<char> { if text == [] then None else Some(text[0]) }

  function Flush(current: string, terms: seq<string>): Result<seq<string>> {
    if current == [] then Ok(terms) else if |terms| == MAX_TERMS then TooManyTerms else Ok(terms + [current])
  }

  /** The scan of the rest of a text. */
  function Scan(
      a: Alphabet, text: string, current: string, previous: Option<char>, terms: seq<string>): Result<seq<string>>
    decreases |text|
  {
    if text == [] then Flush(current, terms)
    else
      var ch := text[0];
      if Keeps(a, ch, previous, Head(text[1..])) then
        var more := current + [Lower(ch)];
        if Size(a, more) > MAX_TERM_BYTES then TermTooLong else Scan(a, text[1..], more, Some(ch), terms)
      else
        match Flush(current, terms)
        case Ok(flushed) => Scan(a, text[1..], [], None, flushed)
        case error => error
  }

  method AnalyzeNormalized(a: Alphabet, text: string) returns (r: Result<seq<string>>)
    ensures r == Scan(a, text, [], None, [])
  {
    var terms: seq<string>, current: string, previous: Option<char> := [], [], None;
    assert text[0..] == text;
    for i := 0 to |text|
      invariant Scan(a, text, [], None, []) == Scan(a, text[i..], current, previous, terms)
    {
      var ch := text[i];
      var next := if i + 1 < |text| then Some(text[i + 1]) else None;
      assert text[i..][0] == ch && text[i..][1..] == text[i + 1..] && next == Head(text[i + 1..]);
      if Keeps(a, ch, previous, next) {
        current := current + [Lower(ch)];
        if Size(a, current) > MAX_TERM_BYTES { return TermTooLong; }
        previous := Some(ch);
      } else {
        var flushed := Flush(current, terms);
        if !flushed.Ok? { return flushed; }
        terms, current, previous := flushed.value, [], None;
      }
    }
    assert text[|text|..] == [];
    r := Flush(current, terms);
  }

  // ---------------------------------------------------------------- what a term looks like

  /** Every character of `t` belongs there, given the character that follows `t`. */
  ghost predicate Formed(a: Alphabet, t: string, after: Option<char>) {
    forall i :: 0 <= i < |t| ==> !Upper(t[i]) && FormedAt(a, t, i, after)
  }

  predicate FormedAt(a: Alphabet, t: string, i: nat, after: Option<char>)
    requires i < |t|
  {
    || a.letter(t[i]) || Digit(t[i])
    || KeepsSeparator(a, t[i], if i == 0 then None else Some(t[i - 1]), if i + 1 < |t| then Some(t[i + 1]) else after)
  }

  /** A term: not empty, lower case, each hyphen between letters and each slash between digits. */
  ghost predicate IsTerm(a: Alphabet, t: string) { t != [] && Size(a, t) <= MAX_TERM_BYTES && Formed(a, t, None) }

  ghost predicate AllTerms(a: Alphabet, terms: seq<string>) {
    |terms| <= MAX_TERMS && forall i :: 0 <= i < |terms| ==> IsTerm(a, terms[i])
  }

  /** What the scanner knows between two characters. */
  ghost predicate ScanOk(a: Alphabet, text: string, current: string, previous: Option<char>) {
    && Formed(a, current, Head(text)) && Size(a, current) <= MAX_TERM_BYTES
    && (current == [] <==> previous.None?)
    && (current != [] ==> Lower(previous.value) == current[|current| - 1])
  }

  lemma {:induction false} LowerKeeps(a: Alphabet, c: char)
    requires AsciiLetters(a)
    ensures !Upper(Lower(c))
    ensures a.letter(c) ==> a.letter(Lower(c))
    ensures Digit(c) ==> Lower(c) == c
    ensures c == '-' || c == '/' ==> Lower(c) == c
  {
  }

  lemma {:induction false} FormedMore(a: Alphabet, text: string, current: string, previous: Option<char>)
    requires AsciiLetters(a) && text != [] && ScanOk(a, text, current, previous)
        && Keeps(a, text[0], previous, Head(text[1..]))
    ensures Formed(a, current + [Lower(text[0])], Head(text[1..]))
  {
    var more, after := current + [Lower(text[0])], Head(text[1..]);
    LowerKeeps(a, text[0]);
    if previous.Some? { LowerKeeps(a, previous.value); }
    forall i | 0 <= i < |more| ensures !Upper(more[i]) && FormedAt(a, more, i, after) {
      if i < |current| {
        assert FormedAt(a, current, i, Head(text));
      }
    }
  }

  /** A character that is not kept ends the term properly: no separator is left hanging. */
  lemma {:induction false} FormedClosed(a: Alphabet, text: string, current: string, previous: Option<char>)
    requires AsciiLetters(a) && ScanOk(a, text, current, previous)
    requires text != [] ==> !Keeps(a, text[0], previous, Head(text[1..]))
    ensures Formed(a, current, None)
  {
    forall i | 0 <= i < |current| ensures FormedAt(a, current, i, None) {
      assert FormedAt(a, current, i, Head(text));
    }
  }

  lemma {:induction false} FlushTerms(a: Alphabet, current: string, terms: seq<string>)
    requires AllTerms(a, terms) && Formed(a, current, None) && Size(a, current) <= MAX_TERM_BYTES
        && Flush(current, terms).Ok?
    ensures AllTerms(a, Flush(current, terms).value)
  {
    hide Formed, Size;
  }

  lemma {:induction false} MoreOk(a: Alphabet, text: string, current: string, previous: Option<char>)
    requires AsciiLetters(a) && text != [] && ScanOk(a, text, current, previous)
        && Keeps(a, text[0], previous, Head(text[1..]))
    requires Size(a, current + [Lower(text[0])]) <= MAX_TERM_BYTES
    ensures ScanOk(a, text[1..], current + [Lower(text[0])], Some(text[0]))
  {
    FormedMore(a, text, current, previous);
    hide Formed, Size, Keeps, AsciiLetters, Lower;
  }

  lemma {:induction false} ScanGivesTerms(
      a: Alphabet, text: string, current: string, previous: Option<char>, terms: seq<string>)
    requires AsciiLetters(a) && ScanOk(a, text, current, previous) && AllTerms(a, terms)
    requires Scan(a, text, current, previous, terms).Ok?
    ensures AllTerms(a, Scan(a, text, current, previous, terms).value)
    decreases |text|
  {
    hide Formed, Keeps, Lower, Size, AsciiLetters, AllTerms, ScanOk, Flush;
    if text == [] || !Keeps(a, text[0], previous, Head(text[1..])) {
      FormedClosed(a, text, current, previous);
      ScanSize(a, text, current, previous);
      FlushTerms(a, current, terms);
      if text != [] {
        EmptyOk(a, text[1..]);
        ScanGivesTerms(a, text[1..], [], None, Flush(current, terms).value);
      }
    } else {
      MoreOk(a, text, current, previous);
      ScanGivesTerms(a, text[1..], current + [Lower(text[0])], Some(text[0]), terms);
    }
  }

  lemma {:induction false} ScanSize(a: Alphabet, text: string, current: string, previous: Option<char>)
    requires ScanOk(a, text, current, previous)
    ensures Size(a, current) <= MAX_TERM_BYTES
  {
  }

  lemma {:induction false} EmptyOk(a: Alphabet, text: string)
    ensures ScanOk(a, text, [], None)
  {
  }

  /** Every emitted term is a term. */
  lemma {:induction false} EmittedTermsAreTerms(a: Alphabet, text: string)
    requires AsciiLetters(a) && Scan(a, text, [], None, []).Ok?
    ensures AllTerms(a, Scan(a, text, [], None, []).value)
  {
    EmptyOk(a, text);
    ScanGivesTerms(a, text, [], None, []);
  }

  // ---------------------------------------------------------------- which characters, which terms

  /** The text with every character that no term keeps replaced by a line break: a character is
      kept for what stands next to it in the text, whatever the scanner has done before. */
  function Mask(a: Alphabet, text: string, before: Option<char>): string {
    if text == [] then []
    else
      var shown := if Keeps(a, text[0], before, Head(text[1..])) then Lower(text[0]) else '\n';
      [shown] + Mask(a, text[1..], Some(text[0]))
  }

  /** The non-empty lines, the first one continuing `current`. */
  function Words(s: string, current: string): seq<string> {
    if s == [] then (if current == [] then [] else [current])
    else if s[0] == '\n' then (if current == [] then [] else [current]) + Words(s[1..], [])
    else Words(s[1..], current + [s[0]])
  }

  /** The scanner's memory agrees with the text where it matters. */
  ghost predicate Remembers(a: Alphabet, previous: Option<char>, before: Option<char>) {
    && (previous.Some? ==> previous == before)
    && (Is(a.letter, before) || IsDigit(before) ==> previous == before)
  }

  lemma {:induction false} KeepsByText(
      a: Alphabet, ch: char, previous: Option<char>, before: Option<char>, next: Option<char>)
    requires Remembers(a, previous, before)
    ensures Keeps(a, ch, previous, next) <==> Keeps(a, ch, before, next)
  {
  }

  lemma {:induction false} ScanIsWords(
      a: Alphabet, text: string, current: string, previous: Option<char>, before: Option<char>, terms: seq<string>)
    requires AsciiLetters(a) && Remembers(a, previous, before) && Scan(a, text, current, previous, terms).Ok?
    ensures Scan(a, text, current, previous, terms).value == terms + Words(Mask(a, text, before), current)
    decreases |text|
  {
    if text == [] {
      assert terms + [] == terms;
    } else {
      var ch, rest := text[0], text[1..];
      KeepsByText(a, ch, previous, before, Head(rest));
      var mask := Mask(a, text, before);
      assert mask[1..] == Mask(a, rest, Some(ch));
      if Keeps(a, ch, previous, Head(rest)) {
        assert Lower(ch) != '\n' by { KeptIsNoBreak(a, ch, previous, Head(rest)); }
        assert Remembers(a, Some(ch), Some(ch));
        hide Keeps, AsciiLetters, Lower, Size;
        ScanIsWords(a, rest, current + [Lower(ch)], Some(ch), Some(ch), terms);
      } else {
        assert Remembers(a, None, Some(ch));
        var flushed := Flush(current, terms).value;
        assert flushed == terms + (if current == [] then [] else [current]);
        hide Keeps, AsciiLetters, Lower, Size;
        ScanIsWords(a, rest, [], None, Some(ch), flushed);
      }
    }
  }

  lemma {:induction false} KeptIsNoBreak(a: Alphabet, ch: char, previous: Option<char>, next: Option<char>)
    requires AsciiLetters(a) && Keeps(a, ch, previous, next)
    ensures Lower(ch) != '\n'
  {
  }

  /** The terms are exactly the maximal runs of kept characters, lower-cased, in order: none is
      lost, joined or split. */
  lemma {:induction false} TermsAreMaximalRuns(a: Alphabet, text: string)
    requires AsciiLetters(a) && Scan(a, text, [], None, []).Ok?
    ensures Scan(a, text, [], None, []).value == Words(Mask(a, text, None), [])
  {
    ScanIsWords(a, text, [], None, None, []);
    assert [] + Words(Mask(a, text, None), []) == Words(Mask(a, text, None), []);
  }

  /** Which characters are kept, by their place in the text: letters and digits, a hyphen between
      two letters and a slash between two digits; capital letters of ASCII as small ones. */
  lemma {:induction false} MaskAt(a: Alphabet, text: string, before: Option<char>, i: nat)
    requires i < |text|
    ensures
      var ch, mask := text[i], Mask(a, text, before);
      var left := if i > 0 then Some(text[i - 1]) else before;
      var right := if i + 1 < |text| then Some(text[i + 1]) else None;
      var hyphen := left.Some? && right.Some? && ch == '-' && a.letter(left.value) && a.letter(right.value);
      var slash := left.Some? && right.Some? && ch == '/' && '0' <= left.value <= '9' && '0' <= right.value <= '9';
      && |mask| == |text|
      && mask[i] == (if !a.letter(ch) && !('0' <= ch <= '9') && !hyphen && !slash then '\n'
                     else if 'A' <= ch <= 'Z' then (ch as int - 'A' as int + 'a' as int) as char
                     else ch)
  {
    MaskLength(a, text[1..], Some(text[0]));
    if i > 0 { MaskAt(a, text[1..], Some(text[0]), i - 1); }
  }

  lemma {:induction false} MaskLength(a: Alphabet, text: string, before: Option<char>)
    ensures |Mask(a, text, before)| == |text|
  {
    if text != [] { MaskLength(a, text[1..], Some(text[0])); }
  }

  // ---------------------------------------------------------------- when the scan fails

  ghost predicate Small(a: Alphabet, words: seq<string>) { forall w :: w in words ==> Size(a, w) <= 256 }

  lemma {:induction false} SizeGrows(a: Alphabet, s: string, t: string)
    requires s <= t
    ensures Size(a, s) <= Size(a, t)
  {
    if s != t {
      SizeGrows(a, s, t[..|t| - 1]);
    }
  }

  /** The term begun is part of the first word. */
  lemma {:induction false} FirstWord(s: string, current: string)
    requires current != []
    ensures Words(s, current) != [] && current <= Words(s, current)[0]
    decreases |s|
  {
    if s != [] && s[0] != '\n' { FirstWord(s[1..], current + [s[0]]); }
  }

  lemma {:induction false} ScanFailsExactly(
      a: Alphabet, text: string, current: string, previous: Option<char>, before: Option<char>, terms: seq<string>)
    requires AsciiLetters(a) && Remembers(a, previous, before) && Size(a, current) <= 256 && |terms| <= 100_000
    ensures
      var words := Words(Mask(a, text, before), current);
      Scan(a, text, current, previous, terms).Ok? <==> Small(a, words) && |terms| + |words| <= 100_000
    decreases |text|
  {
    if text != [] {
      var ch, rest := text[0], text[1..];
      KeepsByText(a, ch, previous, before, Head(rest));
      var mask, tail := Mask(a, text, before), Mask(a, rest, Some(ch));
      assert mask[1..] == tail;
      if Keeps(a, ch, previous, Head(rest)) {
        assert Lower(ch) != '\n' by { KeptIsNoBreak(a, ch, previous, Head(rest)); }
        assert Remembers(a, Some(ch), Some(ch));
        var more := current + [Lower(ch)];
        assert Words(mask, current) == Words(tail, more);
        hide Keeps, AsciiLetters, Lower, Mask;
        if Size(a, more) > MAX_TERM_BYTES {
          FirstWord(tail, more);
          SizeGrows(a, more, Words(tail, more)[0]);
        } else {
          ScanFailsExactly(a, rest, more, Some(ch), Some(ch), terms);
        }
      } else {
        assert Remembers(a, None, Some(ch));
        var done := if current == [] then [] else [current];
        assert Words(mask, current) == done + Words(tail, []);
        hide Keeps, AsciiLetters, Lower, Mask;
        if Flush(current, terms).Ok? {
          ScanFailsExactly(a, rest, [], None, Some(ch), Flush(current, terms).value);
        }
        hide Scan, Words;
        SmallConcat(a, done, Words(tail, []));
      }
    }
  }

  lemma {:induction false} SmallConcat(a: Alphabet, done: seq<string>, words: seq<string>)
    requires Small(a, done)
    ensures Small(a, done + words) <==> Small(a, words)
  {
    forall w | w in words ensures w in done + words {
      var i :| 0 <= i < |words| && words[i] == w;
      assert (done + words)[|done| + i] == w;
    }
  }

  /** The scan fails exactly when a run of kept characters is longer than 256 bytes or there are more
      than a hundred thousand of them. */
  lemma {:induction false} LimitsAreExact(a: Alphabet, text: string)
    requires AsciiLetters(a)
    ensures
      var words := Words(Mask(a, text, None), []);
      Scan(a, text, [], None, []).Ok? <==> |words| <= 100_000 && forall w :: w in words ==> Size(a, w) <= 256
  {
    ScanFailsExactly(a, text, [], None, None, []);
  }

  // ---------------------------------------------------------------- scanning terms again

  function Lines(terms: seq<string>): string {
    if terms == [] then [] else if |terms| == 1 then terms[0] else terms[0] + "\n" + Lines(terms[1..])
  }

  function Before(t: string, k: nat): Option<char>
    requires k <= |t|
  {
    if k == 0 then None else Some(t[k - 1])
  }

  lemma {:induction false} SizePrefix(a: Alphabet, t: string, k: nat)
    requires k <= |t|
    ensures Size(a, t[..k]) <= Size(a, t)
    decreases |t| - k
  {
    if k < |t| {
      SizePrefix(a, t, k + 1);
      assert t[..k + 1][..k] == t[..k];
    } else {
      assert t[..k] == t;
    }
  }

  /** The scanner walks through a term without a break. */
  lemma {:induction false} ScanThrough(a: Alphabet, t: string, rest: string, k: nat, terms: seq<string>)
    requires AsciiLetters(a) && IsTerm(a, t) && k <= |t| && (rest == [] || rest[0] == '\n')
    ensures Scan(a, t[k..] + rest, t[..k], Before(t, k), terms) == Scan(a, rest, t, Before(t, |t|), terms)
    decreases |t| - k
  {
    if k == |t| {
      assert t[k..] + rest == rest && t[..k] == t;
    } else {
      var text := t[k..] + rest;
      assert text[0] == t[k] && text[1..] == t[k + 1..] + rest;
      assert FormedAt(a, t, k, None) && !Upper(t[k]);
      assert Keeps(a, t[k], Before(t, k), Head(text[1..]));
      assert t[..k] + [Lower(t[k])] == t[..k + 1];
      SizePrefix(a, t, k + 1);
      hide Formed, Keeps, AsciiLetters;
      ScanThrough(a, t, rest, k + 1, terms);
    }
  }

  lemma {:induction false} RescanFrom(a: Alphabet, terms: seq<string>, done: seq<string>)
    requires AsciiLetters(a) && AllTerms(a, done + terms)
    ensures Scan(a, Lines(terms), [], None, done) == Ok(done + terms)
    decreases |terms|
  {
    if terms == [] {
      assert done + terms == done;
    } else {
      var t := terms[0];
      assert (done + terms)[|done|] == t;
      var rest := if |terms| == 1 then [] else "\n" + Lines(terms[1..]);
      assert Lines(terms) == t + rest;
      assert t[0..] == t && t[..0] == [];
      ScanThrough(a, t, rest, 0, done);
      assert done + [t] + terms[1..] == done + terms;
      if |terms| > 1 {
        assert rest[1..] == Lines(terms[1..]);
        assert !Keeps(a, '\n', Before(t, |t|), Head(rest[1..]));
        hide Keeps, AllTerms;
        RescanFrom(a, terms[1..], done + [t]);
      } else {
        assert terms == [t];
      }
    }
  }

  /** Scanning the emitted terms, one to a line, gives the same terms. */
  lemma {:induction false} RescanIsStable(a: Alphabet, text: string)
    requires AsciiLetters(a) && Scan(a, text, [], None, []).Ok?
    ensures
      var terms := Scan(a, text, [], None, []).value;
      Scan(a, Lines(terms), [], None, []) == Ok(terms)
  {
    var terms := Scan(a, text, [], None, []).value;
    EmittedTermsAreTerms(a, text);
    assert [] + terms == terms;
    RescanFrom(a, terms, []);
  }
}
