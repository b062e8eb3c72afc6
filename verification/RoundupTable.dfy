// The roundup_power2_divisions option of c10/core/AllocatorConfig.cpp: parsing its list into
// the table of 16 intervals, and looking a size up.
module RoundupTable {
  import opened Bits
  import opened Wrappers
  import opened Decimals

  const INTERVALS: nat := 16
  const WORD: nat := 0x1_0000_0000_0000_0000
  const LOG_MB: nat := 20

  // ----- numbers -----

  // std::stoull on a token: an optional sign, at least one digit, anything behind them ignored;
  // None stands for its exceptions.
  function ToSizeT(s: string): (r: Option<nat>) {
    var signed := s != "" && (s[0] == '+' || s[0] == '-');
    var digits := if signed then s[1..] else s;
    if digits == "" || !IsDigit(digits[0]) then None
    else
      var v := DigitsPrefix(digits, 0);
      if v >= WORD then None
      else if signed && s[0] == '-' then Some((WORD - v) % WORD)
      else Some(v)
  }

  // isPowerOf2_64
  predicate IsPowerOf2(v: nat) {
    v != 0 && And(v, v - 1) == 0
  }

  lemma {:induction false} AndSelf(x: nat)
    ensures And(x, x) == x
  {
    if x > 0 {
      AndSelf(x / 2);
    }
  }

  // An odd number is a power of two only if it is 1.
  lemma OddPower(v: nat)
    requires v % 2 == 1
    ensures IsPowerOf2(v) <==> v == 1
  {
    assert (v - 1) / 2 == v / 2 && (v - 1) % 2 == 0;
    AndSelf(v / 2);
  }

  lemma EvenPower(v: nat)
    requires v > 0 && v % 2 == 0
    ensures IsPowerOf2(v) <==> IsPowerOf2(v / 2)
  {
    assert (v - 1) / 2 == v / 2 - 1 && (v - 1) % 2 == 1;
  }

  // The bit trick accepts exactly the powers of two.
  lemma {:induction false} PowerOf2Iff(v: nat)
    ensures IsPowerOf2(v) <==> v == Shl(1, BitLength(v) - if v == 0 then 0 else 1) && v != 0
  {
    if v % 2 == 1 {
      OddPower(v);
      if v > 1 {
        var n := BitLength(v / 2);
        assert Shl(1, n) == 2 * Shl(1, n - 1);
      }
    } else if v > 0 {
      EvenPower(v);
      PowerOf2Iff(v / 2);
    }
  }

  // ----- the parser -----

  // The table, whether a boundary was seen, and the interval of the last boundary.
  datatype Progress = Progress(table: seq<nat>, first: bool, last: nat)

  // The table as the parser left it and the index of the last token read; None when it threw.
  datatype Outcome = Outcome(table: seq<nat>, end: Option<nat>)

  function Fill(t: seq<nat>, lo: nat, hi: nat, v: nat): (r: seq<nat>)
    ensures |r| == |t| && forall i :: 0 <= i < |t| ==> r[i] == if lo <= i < hi then v else t[i]
  {
    seq(|t|, i requires 0 <= i < |t| => if lo <= i < hi then v else t[i])
  }

  function Interval(boundary: nat): (i: nat)
    requires boundary > 0
    ensures i < INTERVALS
  {
    if BitLength(boundary) > INTERVALS then INTERVALS - 1 else BitLength(boundary) - 1
  }

  predicate ValueOk(v: Option<nat>) {
    v.Some? && (v.value == 0 || IsPowerOf2(v.value))
  }

  predicate BoundaryOk(b: Option<nat>) {
    b.Some? && IsPowerOf2(b.value)
  }

  // One entry: ">" fills everything behind the last boundary; a boundary sets its interval, the
  // first one also every interval below.
  function Entry(p: Progress, isRest: bool, boundary: nat, v: nat): (p': Progress)
    requires isRest || boundary > 0
  {
    if isRest then p.(table := Fill(p.table, p.last + 1, INTERVALS, v))
    else
      var i := Interval(boundary);
      Progress(Fill(Fill(p.table, 0, if p.first then i else 0, v), i, i + 1, v), false, i)
  }

  // The loop of parseRoundUpPower2Divisions with i at the first token of an entry. The tokens
  // between an entry's boundary and value and between entries are skipped unseen.
  function ParseEntries(tokens: seq<string>, i: nat, p: Progress): (outcome: Outcome)
    decreases |tokens| - i
  {
    if i >= |tokens| then Outcome(p.table, None)
    else if tokens[i] == "]" then Outcome(p.table, Some(i))
    else if i + 2 >= |tokens| then Outcome(p.table, None)
    else
      var v, isRest, b := ToSizeT(tokens[i + 2]), tokens[i] == ">", ToSizeT(tokens[i]);
      if !ValueOk(v) || (!isRest && !BoundaryOk(b)) then Outcome(p.table, None)
      else
        var p' := Entry(p, isRest, if isRest then 0 else b.value, v.value);
        if i + 3 >= |tokens| then Outcome(p'.table, None)
        else ParseEntries(tokens, if tokens[i + 3] == "]" then i + 3 else i + 4, p')
  }

  function ParseOption(tokens: seq<string>, i: nat, table: seq<nat>): (outcome: Outcome) {
    if i + 2 >= |tokens| then Outcome(table, None)
    else if tokens[i + 2] == "[" then ParseEntries(tokens, i + 3, Progress(table, true, 0))
    else
      var v := ToSizeT(tokens[i + 2]);
      if v.Some? && IsPowerOf2(v.value) then Outcome(Fill(table, 0, |table|, v.value), Some(i + 2))
      else Outcome(table, None)
  }

  class AllocatorConfig {
    const divisions: array<nat>

    constructor ()
      ensures fresh(divisions) && divisions.Length == INTERVALS
      ensures forall i :: 0 <= i < INTERVALS ==> divisions[i] == 0
    {
      divisions := new nat[INTERVALS](_ => 0);
    }

    // parseArgs resets the table before it reads the options.
    method Reset()
      modifies divisions
      ensures forall i :: 0 <= i < divisions.Length ==> divisions[i] == 0
    {
      FillDivisions(0, divisions.Length, 0);
    }

    // std::fill
    method FillDivisions(lo: nat, hi: nat, v: nat)
      requires hi <= divisions.Length
      modifies divisions
      ensures divisions[..] == Fill(old(divisions[..]), lo, hi, v)
    {
      var i := lo;
      while i < hi
        invariant forall k :: 0 <= k < divisions.Length ==>
                    divisions[k] == if lo <= k < i && k < hi then v else old(divisions[k])
      {
        divisions[i] := v;
        i := i + 1;
      }
    }

    // What one list entry does to the table.
    method SetEntry(isRest: bool, boundary: nat, v: nat, first: bool, last: nat) returns (first': bool, last': nat)
      requires divisions.Length == INTERVALS && last < INTERVALS && (isRest || boundary > 0)
      modifies divisions
      ensures Progress(divisions[..], first', last') ==
              Entry(Progress(old(divisions[..]), first, last), isRest, boundary, v)
      ensures last' < INTERVALS
    {
      first', last' := first, last;
      if isRest {
        FillDivisions(last + 1, INTERVALS, v);
      } else {
        var index := Interval(boundary);
        FillDivisions(0, if first then index else 0, v);
        FillDivisions(index, index + 1, v);
        first', last' := false, index;
      }
    }

    method ParseRoundUpPower2Divisions(tokens: seq<string>, i: nat) returns (end: Option<nat>)
      requires divisions.Length == INTERVALS
      modifies divisions
      ensures Outcome(divisions[..], end) == ParseOption(tokens, i, old(divisions[..]))
    {
      if i + 2 >= |tokens| {
        return None;
      }
      if tokens[i + 2] != "[" {
        var v := ToSizeT(tokens[i + 2]);
        if v.None? || !IsPowerOf2(v.value) {
          return None;
        }
        FillDivisions(0, divisions.Length, v.value);
        return Some(i + 2);
      }
      var k, first := i + 3, true;
      var last: nat := 0;
      while k < |tokens| && tokens[k] != "]"
        invariant last < INTERVALS
        invariant ParseEntries(tokens, k, Progress(divisions[..], first, last)) ==
                  ParseOption(tokens, i, old(divisions[..]))
        decreases |tokens| - k
      {
        if k + 2 >= |tokens| {
          return None;
        }
        var v := ToSizeT(tokens[k + 2]);
        if !ValueOk(v) {
          return None;
        }
        var boundary: nat := 0;
        if tokens[k] != ">" {
          var b := ToSizeT(tokens[k]);
          if !BoundaryOk(b) {
            return None;
          }
          boundary := b.value;
        }
        first, last := SetEntry(tokens[k] == ">", boundary, v.value, first, last);
        if k + 3 >= |tokens| {
          return None;
        }
        k := if tokens[k + 3] == "]" then k + 3 else k + 4;
      }
      end := if k < |tokens| then Some(k) else None;
    }

    // roundup_power2_divisions(size)
    method RoundupPower2Divisions(size: nat) returns (v: nat)
      requires divisions.Length == INTERVALS
      ensures v == Lookup(divisions[..], size)
    {
      // 63 - countLeadingZeros wraps around for size 0.
      var logSize := if size == 0 then WORD - 1 else BitLength(size) - 1;
      var index := if logSize > LOG_MB then logSize - LOG_MB else 0;
      index := if index > INTERVALS - 1 then INTERVALS - 1 else index;
      v := divisions[index];
    }
  }

  function SizeInterval(size: nat): (i: nat)
    ensures i < INTERVALS
  {
    if size == 0 || BitLength(size) >= LOG_MB + INTERVALS then INTERVALS - 1
    else if BitLength(size) <= LOG_MB + 1 then 0
    else BitLength(size) - 1 - LOG_MB
  }

  function Lookup(table: seq<nat>, size: nat): (n: nat)
    requires |table| == INTERVALS
  {
    table[SizeInterval(size)]
  }

  // ----- what the table always is -----

  predicate TableOk(t: seq<nat>) {
    |t| == INTERVALS && forall i :: 0 <= i < |t| ==> t[i] == 0 || IsPowerOf2(t[i])
  }

  // Whatever the tokens are, also when the parser throws half-way: 16 entries, each 0 or a power of two.
  lemma {:induction false} EntriesKeepTable(tokens: seq<string>, i: nat, p: Progress)
    requires TableOk(p.table)
    ensures TableOk(ParseEntries(tokens, i, p).table)
    decreases |tokens| - i
  {
    if i + 3 < |tokens| && tokens[i] != "]" {
      var v, isRest, b := ToSizeT(tokens[i + 2]), tokens[i] == ">", ToSizeT(tokens[i]);
      if ValueOk(v) && (isRest || BoundaryOk(b)) {
        var p' := Entry(p, isRest, if isRest then 0 else b.value, v.value);
        EntriesKeepTable(tokens, if tokens[i + 3] == "]" then i + 3 else i + 4, p');
      }
    }
  }

  lemma ParseKeepsTable(tokens: seq<string>, i: nat, table: seq<nat>)
    requires TableOk(table)
    ensures TableOk(ParseOption(tokens, i, table).table)
  {
    EntriesKeepTable(tokens, i + 3, Progress(table, true, 0));
  }

  // ----- which lists are accepted -----

  // At token k: a boundary or ">", any token at all, and a value.
  predicate EntryAt(tokens: seq<string>, k: nat) {
    && k + 2 < |tokens| && tokens[k] != "]"
    && ValueOk(ToSizeT(tokens[k + 2])) && (tokens[k] == ">" || BoundaryOk(ToSizeT(tokens[k])))
  }

  // n entries from token i on, four tokens apart, with anything but "]" between them; the "]" at
  // token end follows the last value at once or one token later.
  predicate ListShape(tokens: seq<string>, i: nat, n: nat, end: nat) {
    && (forall j :: 0 <= j < n ==> EntryAt(tokens, i + 4 * j))
    && (forall j :: 0 <= j < n - 1 ==> i + 4 * j + 3 < |tokens| && tokens[i + 4 * j + 3] != "]")
    && end < |tokens| && tokens[end] == "]"
    && if n > 0 && end == i + 4 * n - 1 then true else end == i + 4 * n && (n > 0 ==> tokens[end - 1] != "]")
  }

  function AfterEntry(tokens: seq<string>, i: nat, p: Progress): (r: Progress)
    requires EntryAt(tokens, i)
  {
    var isRest := tokens[i] == ">";
    Entry(p, isRest, if isRest then 0 else ToSizeT(tokens[i]).value, ToSizeT(tokens[i + 2]).value)
  }

  // One entry that is not refused.
  lemma ParseStep(tokens: seq<string>, i: nat, p: Progress)
    ensures i < |tokens| && tokens[i] != "]" && ParseEntries(tokens, i, p).end.Some? ==> EntryAt(tokens, i) && i + 3 < |tokens|
    ensures EntryAt(tokens, i) && i + 3 < |tokens| ==>
              ParseEntries(tokens, i, p) ==
              ParseEntries(tokens, if tokens[i + 3] == "]" then i + 3 else i + 4, AfterEntry(tokens, i, p))
  {
  }

  // An entry in front of a list makes a list ...
  lemma ShapePush(tokens: seq<string>, i: nat, n: nat, end: nat)
    requires EntryAt(tokens, i) && i + 3 < |tokens| && tokens[i + 3] != "]"
    requires ListShape(tokens, i + 4, n, end)
    ensures ListShape(tokens, i, n + 1, end)
  {
    forall j | 0 <= j < n + 1 ensures EntryAt(tokens, i + 4 * j) {
      assert j > 0 ==> EntryAt(tokens, i + 4 + 4 * (j - 1));
    }
    forall j | 0 <= j < n ensures i + 4 * j + 3 < |tokens| && tokens[i + 4 * j + 3] != "]" {
      assert j > 0 ==> tokens[i + 4 + 4 * (j - 1) + 3] != "]";
    }
  }

  // ... and what is behind the first entry of a list is one.
  lemma ShapePop(tokens: seq<string>, i: nat, n: nat, end: nat)
    requires ListShape(tokens, i, n + 1, end) && tokens[i + 3] != "]"
    ensures ListShape(tokens, i + 4, n, end)
  {
    forall j | 0 <= j < n ensures EntryAt(tokens, i + 4 + 4 * j) {
      assert EntryAt(tokens, i + 4 * (j + 1));
    }
    forall j | 0 <= j < n - 1 ensures i + 4 + 4 * j + 3 < |tokens| && tokens[i + 4 + 4 * j + 3] != "]" {
      assert tokens[i + 4 * (j + 1) + 3] != "]";
    }
  }

  lemma {:induction false} AcceptedHasShape(tokens: seq<string>, i: nat, p: Progress) returns (n: nat)
    requires ParseEntries(tokens, i, p).end.Some?
    ensures ListShape(tokens, i, n, ParseEntries(tokens, i, p).end.value)
    decreases |tokens| - i
  {
    n := 0;
    if tokens[i] != "]" {
      ParseStep(tokens, i, p);
      n := 1;
      if tokens[i + 3] != "]" {
        var m := AcceptedHasShape(tokens, i + 4, AfterEntry(tokens, i, p));
        n := m + 1;
        ShapePush(tokens, i, m, ParseEntries(tokens, i, p).end.value);
      }
    }
  }

  lemma {:induction false} ShapeIsAccepted(tokens: seq<string>, i: nat, n: nat, end: nat, p: Progress)
    requires ListShape(tokens, i, n, end)
    ensures ParseEntries(tokens, i, p).end == Some(end)
    decreases n
  {
    if n > 0 {
      assert EntryAt(tokens, i + 4 * 0);
      assert n > 1 ==> tokens[i + 4 * 0 + 3] != "]";
      ParseStep(tokens, i, p);
      if tokens[i + 3] != "]" {
        ShapePop(tokens, i, n - 1, end);
        ShapeIsAccepted(tokens, i + 4, n - 1, end, AfterEntry(tokens, i, p));
      }
    }
  }

  // The lists the parser accepts, and where it stops.
  lemma AcceptedExactly(tokens: seq<string>, i: nat, p: Progress, end: nat)
    ensures ParseEntries(tokens, i, p).end == Some(end) <==> exists n :: ListShape(tokens, i, n, end)
  {
    if ParseEntries(tokens, i, p).end == Some(end) {
      var n := AcceptedHasShape(tokens, i, p);
    }
    forall n | ListShape(tokens, i, n, end) ensures ParseEntries(tokens, i, p).end == Some(end) {
      ShapeIsAccepted(tokens, i, n, end, p);
    }
  }

  // The lists with ':' and ',' where they belong.
  predicate SeparatorsRight(tokens: seq<string>, i: nat, n: nat) {
    forall j :: 0 <= j < n ==>
      && i + 4 * j + 1 < |tokens| && tokens[i + 4 * j + 1] == ":"
      && (j < n - 1 ==> i + 4 * j + 3 < |tokens| && tokens[i + 4 * j + 3] == ",")
  }

  // s and t differ at most in the places of ':' and ','; in the latter neither has a "]".
  predicate SameButSeparators(s: seq<string>, t: seq<string>, i: nat) {
    && |s| == |t|
    && forall k :: i <= k < |s| ==>
         s[k] == t[k] || (k - i) % 4 == 1 || ((k - i) % 4 == 3 && s[k] != "]" && t[k] != "]")
  }

  // What stands in those places is never looked at: table and end are the same.
  lemma {:induction false} SeparatorsUnread(s: seq<string>, t: seq<string>, i: nat, p: Progress)
    requires SameButSeparators(s, t, i)
    ensures ParseEntries(s, i, p) == ParseEntries(t, i, p)
    decreases |s| - i
  {
    if i + 3 < |s| {
      assert s[i] == t[i] && s[i + 2] == t[i + 2];
      assert s[i + 3] == "]" <==> t[i + 3] == "]";
      if EntryAt(s, i) {
        ParseStep(s, i, p);
        ParseStep(t, i, p);
        SeparatorsUnread(s, t, i + 4, AfterEntry(s, i, p));
      }
    }
  }

  // Reading a printed number; std::stoull throws beyond its range.
  lemma ReadSize(n: nat)
    ensures ToSizeT(Decimal(n)) == if n < WORD then Some(n) else None
  {
    ReadDecimal(n);
    assert IsDigit(Decimal(n)[0]);
  }

  function TwoEntries(x: string, y: string, z: string): (tokens: seq<string>) {
    ["roundup_power2_divisions", ":", "[", "1", x, "2", y, "4", z, "8", "]"]
  }

  lemma TwoEntriesShape(x: string, y: string, z: string)
    requires y != "]"
    ensures ListShape(TwoEntries(x, y, z), 3, 2, 10)
  {
    var tokens := TwoEntries(x, y, z);
    SmallPower(1);
    SmallPower(2);
    SmallPower(4);
    SmallPower(8);
    forall j | 0 <= j < 2 ensures EntryAt(tokens, 3 + 4 * j) {
      if j == 0 {
        assert EntryAt(tokens, 3);
      } else {
        assert EntryAt(tokens, 7);
      }
    }
  }

  // "[1 x 2 y 4 z 8]" is taken for "[1:2,4:8]", whatever x, y and z are.
  lemma WrongSeparatorsPass(x: string, y: string, z: string, table: seq<nat>)
    requires y != "]"
    ensures ParseOption(TwoEntries(x, y, z), 0, table) == ParseOption(TwoEntries(":", ",", ":"), 0, table)
    ensures ParseOption(TwoEntries(x, y, z), 0, table).end == Some(10)
    ensures SeparatorsRight(TwoEntries(x, y, z), 3, 2) <==> x == ":" && y == "," && z == ":"
  {
    var p, good, bad := Progress(table, true, 0), TwoEntries(":", ",", ":"), TwoEntries(x, y, z);
    SeparatorsUnread(bad, good, 3, p);
    TwoEntriesShape(x, y, z);
    ShapeIsAccepted(bad, 3, 2, 10, p);
    SeparatorsOfTwo(x, y, z);
  }

  lemma SeparatorsOfTwo(x: string, y: string, z: string)
    ensures SeparatorsRight(TwoEntries(x, y, z), 3, 2) <==> x == ":" && y == "," && z == ":"
  {
    var tokens := TwoEntries(x, y, z);
    if SeparatorsRight(tokens, 3, 2) {
      assert tokens[3 + 4 * 0 + 1] == ":" && tokens[3 + 4 * 0 + 3] == "," && tokens[3 + 4 * 1 + 1] == ":";
    }
  }

  lemma SmallPower(n: nat)
    requires n in {1, 2, 4, 8}
    ensures ToSizeT([Digit(n)]) == Some(n) && IsPowerOf2(n)
  {
    ReadSize(n);
    PowerOf2Iff(n);
  }

  // ----- what a well-formed list means -----

  // At token i: a boundary 2^e with value v. Nothing is said about the tokens in the places of ':'
  // and ',' except that the latter is no ']'.
  predicate IsEntry(tokens: seq<string>, i: nat, e: nat, v: nat) {
    && i + 3 < |tokens|
    && ToSizeT(tokens[i]) == Some(Shl(1, e)) && tokens[i] != ">" && tokens[i] != "]"
    && ToSizeT(tokens[i + 2]) == Some(v) && (v == 0 || IsPowerOf2(v))
    && tokens[i + 3] != "]"
  }

  // At token i: ">" with value w, and the closing bracket.
  predicate IsRest(tokens: seq<string>, i: nat, w: nat) {
    && i + 3 < |tokens|
    && tokens[i] == ">" && ToSizeT(tokens[i + 2]) == Some(w) && (w == 0 || IsPowerOf2(w))
    && tokens[i + 3] == "]"
  }

  // From token i on: boundaries 2^es[j] with values vs[j].
  predicate AreEntries(tokens: seq<string>, i: nat, es: seq<nat>, vs: seq<nat>) {
    |es| == |vs| && forall j :: 0 <= j < |es| ==> IsEntry(tokens, i + 4 * j, es[j], vs[j])
  }

  // The same, then ">" with value w and the closing bracket.
  predicate IsList(tokens: seq<string>, i: nat, es: seq<nat>, vs: seq<nat>, w: nat) {
    AreEntries(tokens, i, es, vs) && IsRest(tokens, i + 4 * |es|, w)
  }

  predicate Increasing(es: seq<nat>) {
    forall i, j :: 0 <= i < j < |es| ==> es[i] < es[j]
  }

  // The value of interval k after the first j entries.
  function Want(es: seq<nat>, vs: seq<nat>, j: nat, k: nat): (n: nat)
    requires j <= |es| == |vs|
  {
    if j == 0 then 0
    else if k == es[j - 1] || (j == 1 && k < es[0]) then vs[j - 1]
    else Want(es, vs, j - 1, k)
  }

  lemma PowerInterval(e: nat)
    requires e < INTERVALS
    ensures Shl(1, e) > 0 && IsPowerOf2(Shl(1, e)) && Interval(Shl(1, e)) == e
  {
    BitLengthShl(1, e);
    PowerOf2Iff(Shl(1, e));
  }

  // Every power of two as a boundary; those beyond 2^15 share the last interval.
  lemma BoundaryInterval(e: nat)
    ensures Shl(1, e) > 0 && Interval(Shl(1, e)) == if e < INTERVALS then e else INTERVALS - 1
  {
    BitLengthShl(1, e);
  }

  lemma OneEntry(tokens: seq<string>, k: nat, e: nat, v: nat, p: Progress)
    requires IsEntry(tokens, k, e, v) && Shl(1, e) > 0 && IsPowerOf2(Shl(1, e))
    ensures ParseEntries(tokens, k, p) == ParseEntries(tokens, k + 4, Entry(p, false, Shl(1, e), v))
  {
    ParseStep(tokens, k, p);
  }

  // One entry of a well-formed list.
  lemma EntryStep(tokens: seq<string>, i: nat, es: seq<nat>, vs: seq<nat>, j: nat, p: Progress)
    requires AreEntries(tokens, i, es, vs) && j < |es| && es[j] < INTERVALS
    ensures Shl(1, es[j]) > 0
    ensures ParseEntries(tokens, i + 4 * j, p) ==
            ParseEntries(tokens, i + 4 * (j + 1), Entry(p, false, Shl(1, es[j]), vs[j]))
  {
    PowerInterval(es[j]);
    assert IsEntry(tokens, i + 4 * j, es[j], vs[j]);
    OneEntry(tokens, i + 4 * j, es[j], vs[j], p);
  }

  // The ">" entry and the closing bracket.
  lemma RestStep(tokens: seq<string>, i: nat, es: seq<nat>, vs: seq<nat>, w: nat, p: Progress)
    requires IsList(tokens, i, es, vs, w)
    ensures ParseEntries(tokens, i + 4 * |es|, p) ==
            Outcome(Fill(p.table, p.last + 1, INTERVALS, w), Some(i + 4 * |es| + 3))
  {
  }

  // The parser after the first j entries.
  ghost predicate Parsed(es: seq<nat>, vs: seq<nat>, j: nat, p: Progress)
    requires j <= |es| == |vs|
  {
    && |p.table| == INTERVALS && (forall k :: 0 <= k < INTERVALS ==> p.table[k] == Want(es, vs, j, k))
    && p.first == (j == 0) && p.last == if j == 0 then 0 else es[j - 1]
  }

  lemma EntryParsed(es: seq<nat>, vs: seq<nat>, j: nat, p: Progress)
    requires j < |es| == |vs| && es[j] < INTERVALS && Parsed(es, vs, j, p)
    ensures Shl(1, es[j]) > 0 && Parsed(es, vs, j + 1, Entry(p, false, Shl(1, es[j]), vs[j]))
  {
    PowerInterval(es[j]);
  }

  // The table a well-formed list leaves.
  function Final(es: seq<nat>, vs: seq<nat>, w: nat, k: nat): (n: nat)
    requires |es| == |vs|
  {
    if k > (if |es| == 0 then 0 else es[|es| - 1]) then w else Want(es, vs, |es|, k)
  }

  predicate Bounded(es: seq<nat>) {
    forall j :: 0 <= j < |es| ==> es[j] < INTERVALS && Shl(1, es[j]) > 0
  }

  // The entries from the j-th on.
  function Entries(es: seq<nat>, vs: seq<nat>, j: nat, p: Progress): (p': Progress)
    requires |es| == |vs| && Bounded(es) && j <= |es|
    decreases |es| - j
  {
    if j == |es| then p else Entries(es, vs, j + 1, Entry(p, false, Shl(1, es[j]), vs[j]))
  }

  // From the j-th entry on the parser goes on as after the entries es, vs.
  ghost predicate Follows(tokens: seq<string>, i: nat, es: seq<nat>, vs: seq<nat>, j: nat, p: Progress)
    requires |es| == |vs| && Bounded(es) && j <= |es|
  {
    ParseEntries(tokens, i + 4 * j, p) == ParseEntries(tokens, i + 4 * |es|, Entries(es, vs, j, p))
  }

  lemma {:induction false} ListIsEntries(tokens: seq<string>, i: nat, es: seq<nat>, vs: seq<nat>, j: nat, p: Progress)
    requires AreEntries(tokens, i, es, vs) && Bounded(es) && j <= |es|
    ensures Follows(tokens, i, es, vs, j, p)
    decreases |es| - j
  {
    if j < |es| {
      ListIsEntries(tokens, i, es, vs, j + 1, Entry(p, false, Shl(1, es[j]), vs[j]));
      FollowsStep(tokens, i, es, vs, j, p);
    }
  }

  lemma FollowsStep(tokens: seq<string>, i: nat, es: seq<nat>, vs: seq<nat>, j: nat, p: Progress)
    requires AreEntries(tokens, i, es, vs) && Bounded(es) && j < |es|
    requires Follows(tokens, i, es, vs, j + 1, Entry(p, false, Shl(1, es[j]), vs[j]))
    ensures Follows(tokens, i, es, vs, j, p)
  {
    EntryStep(tokens, i, es, vs, j, p);
  }

  lemma {:induction false} EntriesParsed(es: seq<nat>, vs: seq<nat>, j: nat, p: Progress)
    requires |es| == |vs| && Bounded(es) && j <= |es| && Parsed(es, vs, j, p)
    ensures Parsed(es, vs, |es|, Entries(es, vs, j, p))
    decreases |es| - j
  {
    if j < |es| {
      EntryParsed(es, vs, j, p);
      EntriesParsed(es, vs, j + 1, Entry(p, false, Shl(1, es[j]), vs[j]));
    }
  }

  lemma IncreasingIsBounded(es: seq<nat>)
    requires Increasing(es) && (es == [] || es[|es| - 1] < INTERVALS)
    ensures Bounded(es)
  {
    forall j | 0 <= j < |es| ensures es[j] < INTERVALS && Shl(1, es[j]) > 0 {
      assert j < |es| - 1 ==> es[j] < es[|es| - 1];
      PowerInterval(es[j]);
    }
  }

  lemma ListOutcome(tokens: seq<string>, i: nat, es: seq<nat>, vs: seq<nat>, w: nat, p: Progress)
    requires IsList(tokens, i, es, vs, w) && Bounded(es)
    ensures var q := Entries(es, vs, 0, p);
            ParseEntries(tokens, i, p) == Outcome(Fill(q.table, q.last + 1, INTERVALS, w), Some(i + 4 * |es| + 3))
  {
    ListIsEntries(tokens, i, es, vs, 0, p);
    assert Follows(tokens, i, es, vs, 0, p);
    RestStep(tokens, i, es, vs, w, Entries(es, vs, 0, p));
  }

  ghost predicate IsFinal(es: seq<nat>, vs: seq<nat>, w: nat, t: seq<nat>)
    requires |es| == |vs|
  {
    |t| == INTERVALS && forall k :: 0 <= k < INTERVALS ==> t[k] == Final(es, vs, w, k)
  }

  lemma EntriesFinal(es: seq<nat>, vs: seq<nat>, w: nat, p: Progress)
    requires |es| == |vs| && Increasing(es) && (es == [] || es[|es| - 1] < INTERVALS)
    requires p == Progress(seq(INTERVALS, _ => 0), true, 0)
    ensures Bounded(es)
    ensures var q := Entries(es, vs, 0, p); IsFinal(es, vs, w, Fill(q.table, q.last + 1, INTERVALS, w))
  {
    IncreasingIsBounded(es);
    EntriesParsed(es, vs, 0, p);
  }

  lemma OptionIsEntries(tokens: seq<string>, i: nat, table: seq<nat>)
    requires i + 2 < |tokens| && tokens[i + 2] == "["
    ensures ParseOption(tokens, i, table) == ParseEntries(tokens, i + 3, Progress(table, true, 0))
  {
  }

  // Parsing a well-formed list into a reset table.
  lemma ParseList(tokens: seq<string>, i: nat, es: seq<nat>, vs: seq<nat>, w: nat, table: seq<nat>)
    requires IsList(tokens, i + 3, es, vs, w) && tokens[i + 2] == "["
    requires Increasing(es) && (es == [] || es[|es| - 1] < INTERVALS) && table == seq(INTERVALS, _ => 0)
    ensures var r := ParseOption(tokens, i, table);
            r.end == Some(i + 4 * |es| + 6) && IsFinal(es, vs, w, r.table)
  {
    var p := Progress(table, true, 0);
    EntriesFinal(es, vs, w, p);
    OptionIsEntries(tokens, i, table);
    ListEnds(tokens, i + 3, es, vs, w, p);
  }

  lemma ListEnds(tokens: seq<string>, i: nat, es: seq<nat>, vs: seq<nat>, w: nat, p: Progress)
    requires IsList(tokens, i, es, vs, w) && Bounded(es)
    requires var q := Entries(es, vs, 0, p); IsFinal(es, vs, w, Fill(q.table, q.last + 1, INTERVALS, w))
    ensures var r := ParseEntries(tokens, i, p);
            r.end == Some(i + 4 * |es| + 3) && IsFinal(es, vs, w, r.table)
  {
    ListOutcome(tokens, i, es, vs, w, p);
  }

  lemma {:induction false} WantValue(es: seq<nat>, vs: seq<nat>, j: nat, m: nat, k: nat)
    requires |es| == |vs| && Increasing(es) && m < j <= |es| && (k == es[m] || (m == 0 && k < es[0]))
    ensures Want(es, vs, j, k) == vs[m]
  {
    if j - 1 != m {
      WantValue(es, vs, j - 1, m, k);
    }
  }

  lemma {:induction false} WantGap(es: seq<nat>, vs: seq<nat>, j: nat, k: nat)
    requires |es| == |vs| && j <= |es| && (forall m :: 0 <= m < j ==> k != es[m]) && (j > 0 ==> k > es[0])
    ensures Want(es, vs, j, k) == 0
  {
    if j > 0 {
      WantGap(es, vs, j - 1, k);
    }
  }

  // 2^e megabytes in bytes.
  function Megabytes(e: nat): (n: nat) {
    Shl(1, e + LOG_MB)
  }

  lemma IntervalOfSize(size: nat, e: nat)
    requires size >= 1 && e < INTERVALS
    ensures SizeInterval(size) <= e <==> size < Megabytes(e + 1) || e == INTERVALS - 1
    ensures SizeInterval(size) >= e <==> size >= Megabytes(e) || e == 0
  {
    BitLengthBound(size, e + 1 + LOG_MB);
    BitLengthBound(size, e + LOG_MB);
  }

  // Which value the final table gives a size: v1 below 2*b1 MB, vj on [bj, 2*bj) MB, w from
  // 2*bk MB up, and 0 in the gaps.
  lemma FinalBelowFirst(es: seq<nat>, vs: seq<nat>, w: nat, size: nat)
    requires |es| == |vs| >= 1 && Increasing(es) && es[|es| - 1] < INTERVALS
    requires 1 <= size < Megabytes(es[0] + 1)
    ensures Final(es, vs, w, SizeInterval(size)) == vs[0]
  {
    IntervalOfSize(size, es[0]);
    WantValue(es, vs, |es|, 0, SizeInterval(size));
  }

  lemma FinalAtBoundary(es: seq<nat>, vs: seq<nat>, w: nat, size: nat, m: nat)
    requires |es| == |vs| && Increasing(es) && m < |es| && es[|es| - 1] < INTERVALS
    requires Megabytes(es[m]) <= size < Megabytes(es[m] + 1)
    ensures Final(es, vs, w, SizeInterval(size)) == vs[m]
  {
    ShlMonotone(0, es[m] + LOG_MB);
    IntervalOfSize(size, es[m]);
    WantValue(es, vs, |es|, m, SizeInterval(size));
  }

  lemma FinalAboveLast(es: seq<nat>, vs: seq<nat>, w: nat, size: nat)
    requires |es| == |vs| >= 1 && es[|es| - 1] <= INTERVALS - 2 && size >= Megabytes(es[|es| - 1] + 1)
    ensures Final(es, vs, w, SizeInterval(size)) == w
  {
    var last := es[|es| - 1];
    ShlMonotone(0, last + 1 + LOG_MB);
    IntervalOfSize(size, last + 1);
  }

  lemma FinalInGap(es: seq<nat>, vs: seq<nat>, w: nat, size: nat)
    requires |es| == |vs| >= 1 && Increasing(es) && es[|es| - 1] < INTERVALS
    requires InGap(es, size)
    ensures Final(es, vs, w, SizeInterval(size)) == 0
  {
    ShlMonotone(0, es[0] + 1 + LOG_MB);
    IntervalOfSize(size, es[|es| - 1]);
    forall m | 0 <= m < |es| ensures SizeInterval(size) != es[m] {
      NotInInterval(size, es[m], es[|es| - 1]);
    }
    AboveFirst(size, es[0], es[|es| - 1]);
    WantGap(es, vs, |es|, SizeInterval(size));
  }

  lemma NotInInterval(size: nat, e: nat, last: nat)
    requires 1 <= size < Megabytes(last + 1) && e <= last < INTERVALS
    requires size < Megabytes(e) || Megabytes(e + 1) <= size
    ensures SizeInterval(size) == e ==> e == 0 && size < Megabytes(0)
  {
    IntervalOfSize(size, e);
    if e == INTERVALS - 1 {
      assert last == e;
    }
  }

  lemma AboveFirst(size: nat, first: nat, last: nat)
    requires Megabytes(first + 1) <= size < Megabytes(last + 1) && first <= last < INTERVALS
    ensures SizeInterval(size) > first && size >= Megabytes(0)
  {
    ShlMonotone(0, first + 1 + LOG_MB);
    ShlMonotone(LOG_MB, first + 1 + LOG_MB);
    IntervalOfSize(size, first);
  }

  // What the lookup is after the list: v1 below 2*b1 MB, vj on [bj, 2*bj) MB, w from 2*bk MB up, 0 in gaps.
  ghost predicate LooksUp(es: seq<nat>, vs: seq<nat>, w: nat, table: seq<nat>, size: nat)
    requires |es| == |vs| >= 1 && |table| == INTERVALS
  {
    var x := Lookup(table, size);
    && (size < Megabytes(es[0] + 1) ==> x == vs[0])
    && (forall m :: 0 <= m < |es| && Megabytes(es[m]) <= size < Megabytes(es[m] + 1) ==> x == vs[m])
    && (size >= Megabytes(es[|es| - 1] + 1) ==> x == w)
    && (InGap(es, size) ==> x == 0)
  }

  // After one well-formed list the lookup gives these values for every size.
  lemma ListMeans(tokens: seq<string>, i: nat, es: seq<nat>, vs: seq<nat>, w: nat, table: seq<nat>)
    requires IsList(tokens, i + 3, es, vs, w) && tokens[i + 2] == "["
    requires |es| >= 1 && Increasing(es) && es[|es| - 1] <= INTERVALS - 2
    requires table == seq(INTERVALS, _ => 0)
    ensures var r := ParseOption(tokens, i, table);
            r.end.Some? && |r.table| == INTERVALS && LooksUpAll(es, vs, w, r.table)
  {
    ParseList(tokens, i, es, vs, w, table);
    FinalLooksUp(es, vs, w, ParseOption(tokens, i, table).table);
  }

  // For every size; size 0 counts as larger than all others.
  ghost predicate LooksUpAll(es: seq<nat>, vs: seq<nat>, w: nat, table: seq<nat>)
    requires |es| == |vs| >= 1 && |table| == INTERVALS
  {
    Lookup(table, 0) == w && forall size :: size >= 1 ==> LooksUp(es, vs, w, table, size)
  }

  lemma FinalLooksUp(es: seq<nat>, vs: seq<nat>, w: nat, t: seq<nat>)
    requires |es| == |vs| >= 1 && Increasing(es) && es[|es| - 1] <= INTERVALS - 2 && IsFinal(es, vs, w, t)
    ensures LooksUpAll(es, vs, w, t)
  {
    forall size: nat | size >= 1 ensures LooksUp(es, vs, w, t, size) {
      FinalMeans(es, vs, w, size);
    }
  }

  predicate InGap(es: seq<nat>, size: nat)
    requires |es| >= 1
  {
    && Megabytes(es[0] + 1) <= size < Megabytes(es[|es| - 1] + 1)
    && forall m :: 0 <= m < |es| ==> size < Megabytes(es[m]) || Megabytes(es[m] + 1) <= size
  }

  lemma FinalMeans(es: seq<nat>, vs: seq<nat>, w: nat, size: nat)
    requires |es| == |vs| >= 1 && Increasing(es) && es[|es| - 1] <= INTERVALS - 2 && size >= 1
    ensures var x := Final(es, vs, w, SizeInterval(size));
            && (size < Megabytes(es[0] + 1) ==> x == vs[0])
            && (forall m :: 0 <= m < |es| && Megabytes(es[m]) <= size < Megabytes(es[m] + 1) ==> x == vs[m])
            && (size >= Megabytes(es[|es| - 1] + 1) ==> x == w)
            && (InGap(es, size) ==> x == 0)
  {
    var x := Final(es, vs, w, SizeInterval(size));
    if size < Megabytes(es[0] + 1) {
      FinalBelowFirst(es, vs, w, size);
    }
    if size >= Megabytes(es[|es| - 1] + 1) {
      FinalAboveLast(es, vs, w, size);
    }
    if InGap(es, size) {
      FinalInGap(es, vs, w, size);
    }
    forall m | 0 <= m < |es| && Megabytes(es[m]) <= size < Megabytes(es[m] + 1) ensures x == vs[m] {
      FinalAtBoundary(es, vs, w, size, m);
    }
  }

  // ----- any accepted list: the last entry that covers an interval sets it -----

  datatype Item = Boundary(size: nat, v: nat) | Rest(v: nat)

  function ItemAt(tokens: seq<string>, k: nat): (item: Item)
    requires EntryAt(tokens, k)
  {
    var v := ToSizeT(tokens[k + 2]).value;
    if tokens[k] == ">" then Rest(v) else Boundary(ToSizeT(tokens[k]).value, v)
  }

  predicate EntryNo(tokens: seq<string>, i: nat, j: nat) {
    EntryAt(tokens, i + 4 * j)
  }

  // The first n entries of an accepted list.
  ghost function Items(tokens: seq<string>, i: nat, n: nat): (items: seq<Item>)
    requires forall j :: 0 <= j < n ==> EntryNo(tokens, i, j)
  {
    seq(n, j requires 0 <= j < n => assert EntryNo(tokens, i, j); ItemAt(tokens, i + 4 * j))
  }

  // The interval of the last boundary before item j, or 0.
  function LastInterval(items: seq<Item>, j: nat): (k: nat)
    requires j <= |items|
  {
    if j == 0 then 0
    else if items[j - 1].Boundary? && items[j - 1].size > 0 then Interval(items[j - 1].size)
    else LastInterval(items, j - 1)
  }

  // A boundary covers its own interval, the first one also all below it; ">" covers what is behind the
  // last boundary so far.
  ghost predicate Covers(items: seq<Item>, j: nat, k: nat)
    requires j < |items|
  {
    match items[j]
    case Boundary(size, _) =>
      size > 0 && (k == Interval(size) || (k < Interval(size) && forall m :: 0 <= m < j ==> items[m].Rest?))
    case Rest(_) => k > LastInterval(items, j)
  }

  // t is what the first n items make of the empty table.
  ghost predicate LastWriterWins(items: seq<Item>, n: nat, t: seq<nat>)
    requires n <= |items|
  {
    |t| == INTERVALS &&
    forall k :: 0 <= k < INTERVALS ==>
      && (forall j :: 0 <= j < n && Covers(items, j, k) && (forall m :: j < m < n ==> !Covers(items, m, k)) ==> t[k] == items[j].v)
      && ((forall j :: 0 <= j < n ==> !Covers(items, j, k)) ==> t[k] == 0)
  }

  ghost predicate Written(items: seq<Item>, n: nat, p: Progress)
    requires n <= |items|
  {
    && LastWriterWins(items, n, p.table)
    && (p.first <==> forall m :: 0 <= m < n ==> items[m].Rest?)
    && p.last == LastInterval(items, n)
  }

  function EntryOf(item: Item, p: Progress): (p': Progress)
    requires item.Boundary? ==> item.size > 0
  {
    match item
    case Boundary(size, v) => Entry(p, false, size, v)
    case Rest(v) => Entry(p, true, 0, v)
  }

  lemma ItemWritten(items: seq<Item>, n: nat, p: Progress)
    requires n < |items| && (items[n].Boundary? ==> items[n].size > 0) && Written(items, n, p)
    ensures Written(items, n + 1, EntryOf(items[n], p))
  {
    var p' := EntryOf(items[n], p);
    forall k | 0 <= k < INTERVALS
      ensures p'.table[k] == if Covers(items, n, k) then items[n].v else p.table[k]
    {
    }
  }

  lemma ItemEntry(tokens: seq<string>, k: nat, p: Progress)
    requires EntryAt(tokens, k)
    ensures ItemAt(tokens, k).Boundary? ==> ItemAt(tokens, k).size > 0
    ensures AfterEntry(tokens, k, p) == EntryOf(ItemAt(tokens, k), p)
  {
  }

  predicate SizesOk(items: seq<Item>) {
    forall j :: 0 <= j < |items| ==> SizeOk(items[j])
  }

  predicate SizeOk(item: Item) {
    item.Boundary? ==> item.size > 0
  }

  // The items from the m-th on, one after the other.
  function Fold(items: seq<Item>, m: nat, p: Progress): (p': Progress)
    requires SizesOk(items) && m <= |items|
    decreases |items| - m
  {
    if m == |items| then p else Fold(items, m + 1, EntryOf(items[m], p))
  }

  lemma {:induction false} FoldWrites(items: seq<Item>, m: nat, p: Progress)
    requires SizesOk(items) && m <= |items| && Written(items, m, p)
    ensures Written(items, |items|, Fold(items, m, p))
    decreases |items| - m
  {
    if m < |items| {
      assert SizeOk(items[m]);
      ItemWritten(items, m, p);
      FoldWrites(items, m + 1, EntryOf(items[m], p));
    }
  }

  // What the shape of a list says about its entries: entry m is the m-th item, and the closing bracket
  // comes behind the last one only.
  predicate Step(tokens: seq<string>, i: nat, items: seq<Item>, m: nat)
    requires m < |items|
  {
    var k := i + 4 * m;
    && EntryAt(tokens, k) && items[m] == ItemAt(tokens, k) && k + 3 < |tokens|
    && if m < |items| - 1 then tokens[k + 3] != "]"
       else tokens[k + 3] == "]" || (k + 4 < |tokens| && tokens[k + 4] == "]")
  }

  // Parsing from entry m on leaves the table of the fold.
  ghost predicate Folds(tokens: seq<string>, i: nat, items: seq<Item>, m: nat, p: Progress)
    requires SizesOk(items) && m <= |items|
  {
    ParseEntries(tokens, i + 4 * m, p).table == Fold(items, m, p).table
  }

  lemma StopsAt(tokens: seq<string>, k: nat, p: Progress)
    requires k < |tokens| && tokens[k] == "]"
    ensures ParseEntries(tokens, k, p).table == p.table
  {
  }

  lemma FoldsAtLast(tokens: seq<string>, i: nat, items: seq<Item>, p: Progress)
    requires items != [] && SizesOk(items) && Step(tokens, i, items, |items| - 1)
    ensures Folds(tokens, i, items, |items| - 1, p)
  {
    var m := |items| - 1;
    var k := i + 4 * m;
    ParseStep(tokens, k, p);
    ItemEntry(tokens, k, p);
    StopsAt(tokens, if tokens[k + 3] == "]" then k + 3 else k + 4, AfterEntry(tokens, k, p));
    assert Fold(items, m, p) == Fold(items, m + 1, EntryOf(items[m], p));
  }

  lemma FoldsEarlier(tokens: seq<string>, i: nat, items: seq<Item>, m: nat, p: Progress)
    requires m < |items| - 1 && SizesOk(items) && Step(tokens, i, items, m)
    requires Folds(tokens, i, items, m + 1, EntryOf(items[m], p))
    ensures Folds(tokens, i, items, m, p)
  {
    ParseStep(tokens, i + 4 * m, p);
    ItemEntry(tokens, i + 4 * m, p);
  }

  lemma {:induction false} StepsFold(tokens: seq<string>, i: nat, items: seq<Item>, m: nat, p: Progress)
    requires SizesOk(items) && m < |items|
    requires forall j :: 0 <= j < |items| ==> Step(tokens, i, items, j)
    ensures Folds(tokens, i, items, m, p)
    decreases |items| - m
  {
    if m < |items| - 1 {
      StepsFold(tokens, i, items, m + 1, EntryOf(items[m], p));
      FoldsEarlier(tokens, i, items, m, p);
    } else {
      FoldsAtLast(tokens, i, items, p);
    }
  }

  lemma ShapeAt(tokens: seq<string>, i: nat, n: nat, end: nat, m: nat)
    requires ListShape(tokens, i, n, end) && m < n
    ensures EntryNo(tokens, i, m)
  {
    assert EntryAt(tokens, i + 4 * m);
  }

  lemma ShapeStep(tokens: seq<string>, i: nat, n: nat, end: nat, items: seq<Item>, m: nat)
    requires ListShape(tokens, i, n, end) && m < n == |items|
    requires EntryNo(tokens, i, m) && items[m] == ItemAt(tokens, i + 4 * m)
    ensures SizeOk(items[m]) && Step(tokens, i, items, m)
  {
    assert m < n - 1 ==> tokens[i + 4 * m + 3] != "]";
  }

  lemma ShapeEntries(tokens: seq<string>, i: nat, n: nat, end: nat)
    requires ListShape(tokens, i, n, end)
    ensures forall j :: 0 <= j < n ==> EntryNo(tokens, i, j)
    ensures n == 0 ==> i < |tokens| && tokens[i] == "]"
  {
    forall j | 0 <= j < n ensures EntryNo(tokens, i, j) {
      ShapeAt(tokens, i, n, end, j);
    }
  }

  lemma ShapeSteps(tokens: seq<string>, i: nat, n: nat, end: nat, items: seq<Item>)
    requires ListShape(tokens, i, n, end) && forall j :: 0 <= j < n ==> EntryNo(tokens, i, j)
    requires items == Items(tokens, i, n)
    ensures SizesOk(items) && forall j :: 0 <= j < n ==> Step(tokens, i, items, j)
  {
    forall j | 0 <= j < n ensures SizeOk(items[j]) && Step(tokens, i, items, j) {
      ShapeStep(tokens, i, n, end, items, j);
    }
  }

  lemma StepsWrite(tokens: seq<string>, i: nat, items: seq<Item>, p: Progress)
    requires SizesOk(items) && forall j :: 0 <= j < |items| ==> Step(tokens, i, items, j)
    requires items == [] ==> i < |tokens| && tokens[i] == "]"
    requires Written(items, 0, p)
    ensures LastWriterWins(items, |items|, ParseEntries(tokens, i, p).table)
  {
    FoldWrites(items, 0, p);
    if items == [] {
      StopsAt(tokens, i, p);
    } else {
      StepsFold(tokens, i, items, 0, p);
      assert Folds(tokens, i, items, 0, p);
    }
  }

  // The table after any accepted list, increasing or not and with ">" anywhere: each interval has the value
  // of the last entry that covers it, or 0.
  lemma AcceptedTable(tokens: seq<string>, i: nat, first: nat, n: nat, end: nat, table: seq<nat>)
    requires first == i + 3 && i + 2 < |tokens| && tokens[i + 2] == "[" && ListShape(tokens, first, n, end)
    requires table == seq(INTERVALS, _ => 0)
    ensures forall j :: 0 <= j < n ==> EntryNo(tokens, first, j)
    ensures ParseOption(tokens, i, table).end == Some(end)
    ensures LastWriterWins(Items(tokens, first, n), n, ParseOption(tokens, i, table).table)
  {
    var p := Progress(table, true, 0);
    OptionIsEntries(tokens, i, table);
    ShapeIsAccepted(tokens, first, n, end, p);
    ShapeEntries(tokens, first, n, end);
    ShapeSteps(tokens, first, n, end, Items(tokens, first, n));
    StepsWrite(tokens, first, Items(tokens, first, n), p);
  }

  // ----- lists without ">", and lists that are refused half-way -----

  // The last entry, with the closing bracket right behind its value.
  predicate IsLastEntry(tokens: seq<string>, i: nat, e: nat, v: nat) {
    && i + 3 < |tokens|
    && ToSizeT(tokens[i]) == Some(Shl(1, e)) && tokens[i] != ">" && tokens[i] != "]"
    && ToSizeT(tokens[i + 2]) == Some(v) && (v == 0 || IsPowerOf2(v))
    && tokens[i + 3] == "]"
  }

  predicate IsListWithoutRest(tokens: seq<string>, i: nat, es: seq<nat>, vs: seq<nat>) {
    var n := |es| - 1;
    && |es| == |vs| >= 1
    && (forall j :: 0 <= j < n ==> IsEntry(tokens, i + 4 * j, es[j], vs[j]))
    && IsLastEntry(tokens, i + 4 * n, es[n], vs[n])
  }

  lemma LastEntryEnds(tokens: seq<string>, k: nat, e: nat, v: nat, p: Progress)
    requires IsLastEntry(tokens, k, e, v) && e < INTERVALS
    ensures Shl(1, e) > 0
    ensures ParseEntries(tokens, k, p) == Outcome(Entry(p, false, Shl(1, e), v).table, Some(k + 3))
  {
    PowerInterval(e);
    ParseStep(tokens, k, p);
  }

  lemma OneMoreEntry(tokens: seq<string>, i: nat, es: seq<nat>, vs: seq<nat>, j: nat, p: Progress)
    requires IsListWithoutRest(tokens, i, es, vs) && j < |es| - 1 && es[j] < INTERVALS
    ensures Shl(1, es[j]) > 0
    ensures ParseEntries(tokens, i + 4 * j, p) == ParseEntries(tokens, i + 4 * (j + 1), Entry(p, false, Shl(1, es[j]), vs[j]))
  {
    PowerInterval(es[j]);
    OneEntry(tokens, i + 4 * j, es[j], vs[j], p);
  }

  // From the j-th entry on the parser sets the entries and stops behind the last value.
  ghost predicate Ends(tokens: seq<string>, i: nat, es: seq<nat>, vs: seq<nat>, j: nat, p: Progress)
    requires |es| == |vs| >= 1 && Bounded(es) && j <= |es|
  {
    ParseEntries(tokens, i + 4 * j, p) == Outcome(Entries(es, vs, j, p).table, Some(i + 4 * |es| - 1))
  }

  lemma {:induction false} WithoutRestEnds(tokens: seq<string>, i: nat, es: seq<nat>, vs: seq<nat>, j: nat, p: Progress)
    requires IsListWithoutRest(tokens, i, es, vs) && Bounded(es) && j < |es|
    ensures Ends(tokens, i, es, vs, j, p)
    decreases |es| - j
  {
    if j < |es| - 1 {
      WithoutRestEnds(tokens, i, es, vs, j + 1, Entry(p, false, Shl(1, es[j]), vs[j]));
      EndsEarlier(tokens, i, es, vs, j, p);
    } else {
      EndsAtLast(tokens, i, es, vs, p);
    }
  }

  lemma EndsEarlier(tokens: seq<string>, i: nat, es: seq<nat>, vs: seq<nat>, j: nat, p: Progress)
    requires IsListWithoutRest(tokens, i, es, vs) && Bounded(es) && j < |es| - 1
    requires Ends(tokens, i, es, vs, j + 1, Entry(p, false, Shl(1, es[j]), vs[j]))
    ensures Ends(tokens, i, es, vs, j, p)
  {
    OneMoreEntry(tokens, i, es, vs, j, p);
  }

  lemma EndsAtLast(tokens: seq<string>, i: nat, es: seq<nat>, vs: seq<nat>, p: Progress)
    requires IsListWithoutRest(tokens, i, es, vs) && Bounded(es)
    ensures Ends(tokens, i, es, vs, |es| - 1, p)
  {
    var n := |es| - 1;
    LastEntryEnds(tokens, i + 4 * n, es[n], vs[n], p);
    assert Entries(es, vs, n, p) == Entries(es, vs, n + 1, Entry(p, false, Shl(1, es[n]), vs[n]));
  }

  // Without ">" nothing is set behind the last boundary.
  lemma ParsedIsFinal(es: seq<nat>, vs: seq<nat>, p: Progress)
    requires |es| == |vs| >= 1 && Increasing(es) && Parsed(es, vs, |es|, p)
    ensures IsFinal(es, vs, 0, p.table)
  {
    forall k | es[|es| - 1] < k < INTERVALS ensures Want(es, vs, |es|, k) == 0 {
      forall m | 0 <= m < |es| ensures es[m] < k {
        assert m < |es| - 1 ==> es[m] < es[|es| - 1];
      }
      WantGap(es, vs, |es|, k);
    }
  }

  // After a list without ">" the lookup is as with ">:0".
  lemma ListWithoutRestMeans(tokens: seq<string>, i: nat, es: seq<nat>, vs: seq<nat>, table: seq<nat>)
    requires IsListWithoutRest(tokens, i + 3, es, vs) && tokens[i + 2] == "["
    requires Increasing(es) && es[|es| - 1] <= INTERVALS - 2 && table == seq(INTERVALS, _ => 0)
    ensures var r := ParseOption(tokens, i, table);
            r.end == Some(i + 4 * |es| + 2) && |r.table| == INTERVALS && LooksUpAll(es, vs, 0, r.table)
  {
    var p := Progress(table, true, 0);
    IncreasingIsBounded(es);
    WithoutRestEnds(tokens, i + 3, es, vs, 0, p);
    assert Ends(tokens, i + 3, es, vs, 0, p);
    OptionIsEntries(tokens, i, table);
    EntriesParsed(es, vs, 0, p);
    ParsedIsFinal(es, vs, Entries(es, vs, 0, p));
    FinalLooksUp(es, vs, 0, Entries(es, vs, 0, p).table);
  }

  // When a token behind some entries is refused, the parser throws and those entries stay in the table.
  lemma RefusedHalfWay(tokens: seq<string>, i: nat, es: seq<nat>, vs: seq<nat>, table: seq<nat>)
    requires AreEntries(tokens, i + 3, es, vs) && i + 2 < |tokens| && tokens[i + 2] == "["
    requires Increasing(es) && (es == [] || es[|es| - 1] < INTERVALS) && table == seq(INTERVALS, _ => 0)
    requires var k := i + 3 + 4 * |es|; k >= |tokens| || (tokens[k] != "]" && !EntryAt(tokens, k))
    ensures var r := ParseOption(tokens, i, table);
            r.end == None && |r.table| == INTERVALS && forall k :: 0 <= k < INTERVALS ==> r.table[k] == Want(es, vs, |es|, k)
  {
    var p := Progress(table, true, 0);
    IncreasingIsBounded(es);
    ListIsEntries(tokens, i + 3, es, vs, 0, p);
    assert Follows(tokens, i + 3, es, vs, 0, p);
    EntriesParsed(es, vs, 0, p);
    RefusedAt(tokens, i + 3 + 4 * |es|, Entries(es, vs, 0, p));
  }

  lemma RefusedAt(tokens: seq<string>, k: nat, p: Progress)
    requires k >= |tokens| || (tokens[k] != "]" && !EntryAt(tokens, k))
    ensures ParseEntries(tokens, k, p) == Outcome(p.table, None)
  {
  }

  // ----- the form without brackets -----

  // One number for all sizes, 0 included, if it is a power of two; anything else throws and changes nothing.
  lemma SingleValueMeans(tokens: seq<string>, i: nat, table: seq<nat>)
    requires |table| == INTERVALS && (i + 2 < |tokens| ==> tokens[i + 2] != "[")
    ensures var r, v := ParseOption(tokens, i, table), if i + 2 < |tokens| then ToSizeT(tokens[i + 2]) else None;
            if v.Some? && IsPowerOf2(v.value)
              then r.end == Some(i + 2) && |r.table| == INTERVALS && forall size: nat :: Lookup(r.table, size) == v.value
            else r == Outcome(table, None)
  {
  }

  // The value behind ">" reaches every size from 2*bk MB up exactly when the last boundary is
  // below 2^15 MB, or carries the same value.
  lemma RestReachesExactly(tokens: seq<string>, i: nat, es: seq<nat>, vs: seq<nat>, w: nat, table: seq<nat>)
    requires IsList(tokens, i + 3, es, vs, w) && tokens[i + 2] == "["
    requires |es| >= 1 && Increasing(es) && es[|es| - 1] <= INTERVALS - 1
    requires table == seq(INTERVALS, _ => 0)
    ensures var r := ParseOption(tokens, i, table);
            var last := es[|es| - 1];
            |r.table| == INTERVALS &&
            ((forall size: nat :: size >= Megabytes(last + 1) ==> Lookup(r.table, size) == w) <==>
             last <= INTERVALS - 2 || vs[|es| - 1] == w)
  {
    var last := es[|es| - 1];
    var r := ParseOption(tokens, i, table);
    ParseList(tokens, i, es, vs, w, table);
    forall size: nat | size >= Megabytes(last + 1)
      ensures Lookup(r.table, size) == if last <= INTERVALS - 2 then w else vs[|es| - 1]
    {
      if last <= INTERVALS - 2 {
        FinalAboveLast(es, vs, w, size);
      } else {
        ShlMonotone(last + LOG_MB, last + 1 + LOG_MB);
        ShlMonotone(0, last + LOG_MB);
        IntervalOfSize(size, last);
        WantValue(es, vs, |es|, |es| - 1, last);
      }
    }
    assert Lookup(r.table, Megabytes(last + 1)) == if last <= INTERVALS - 2 then w else vs[|es| - 1];
  }
}
