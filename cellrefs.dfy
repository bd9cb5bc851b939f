/** Cell-reference geometry of utils/csv.js: column letters (bijective base 26),
    references such as "B7", their parser, the label/header merge rule and the
    first-occurrence deduplication of matches. */
module CellRefs {
  import opened Wrappers
  import opened Records

  predicate IsLetter(ch: char) { 'A' <= ch <= 'Z' }
  predicate IsDigit(ch: char) { '0' <= ch <= '9' }
  predicate AllLetters(s: string) { forall i :: 0 <= i < |s| ==> IsLetter(s[i]) }
  predicate AllDigits(s: string) { forall i :: 0 <= i < |s| ==> IsDigit(s[i]) }

  function Min(a: int, b: int): int { if a <= b then a else b }
  function Max(a: int, b: int): int { if a >= b then a else b }

  /** `String.fromCharCode(d + 65)` */
  function Letter(d: nat): char
    requires d < 26
  {
    (65 + d) as char
  }

  function DigitChar(d: nat): char
    requires d < 10
  {
    (48 + d) as char
  }

  // ---------------------------------------------------------------------------
  // Column letters

  /** Name of the zero-based column `c`: 0 is "A", 25 is "Z", 26 is "AA". */
  function ColLetters(c: nat): (r: string)
    ensures |r| > 0 && AllLetters(r)
  {
    (if c / 26 >= 1 then ColLetters(c / 26 - 1) else "") + [Letter(c % 26)]
  }

  /** Value of a column name read as a bijective base-26 numeral (A = 1 ... Z = 26):
      the `colNum` that getCellRefToIndices accumulates. */
  function LettersValue(s: string): nat
    requires AllLetters(s)
  {
    if s == [] then 0 else LettersValue(s[..|s| - 1]) * 26 + (s[|s| - 1] as int - 64)
  }

  /** `parseInt(digits, 10)` of a string of decimal digits. */
  function DigitsValue(s: string): nat
    requires AllDigits(s)
  {
    if s == [] then 0 else DigitsValue(s[..|s| - 1]) * 10 + (s[|s| - 1] as int - 48)
  }

  /** The decimal numeral of `n`, as `String(n)` writes it. */
  function Decimal(n: nat): (r: string)
    ensures |r| > 0 && AllDigits(r)
  {
    (if n >= 10 then Decimal(n / 10) else "") + [DigitChar(n % 10)]
  }

  /** colToChar: the while loop that prepends one letter per bijective base-26 digit. */
  method ColToChar(col: nat) returns (letter: string)
    ensures letter == ColLetters(col)
  {
    letter := "";
    var c: int := col;
    while c >= 0
      invariant -1 <= c
      invariant ColLetters(col) == PendingLetters(c) + letter
      decreases c + 1
    {
      PendingStep(c, letter);
      letter := [Letter(c % 26)] + letter;
      c := c / 26 - 1;
    }
    assert PendingLetters(c) + letter == letter;
  }

  /** The letters the loop has still to prepend while its counter is `c`. */
  function PendingLetters(c: int): string
  {
    if c >= 0 then ColLetters(c) else ""
  }

  /** One turn of the loop moves the last pending letter to the front of `letter`. */
  lemma {:induction false} PendingStep(c: nat, letter: string)
    ensures PendingLetters(c) + letter == PendingLetters(c / 26 - 1) + ([Letter(c % 26)] + letter)
  {
    var head := if c / 26 >= 1 then ColLetters(c / 26 - 1) else "";
    assert ColLetters(c) == head + [Letter(c % 26)];
    assert head == PendingLetters(c / 26 - 1);
  }

  /** Every non-empty column name is `ColLetters` of exactly one column: its value minus one. */
  lemma {:induction false} LettersRoundTrip(c: nat)
    ensures LettersValue(ColLetters(c)) == c + 1
  {
    var q, d := c / 26, c % 26;
    if q >= 1 {
      var prefix := ColLetters(q - 1);
      assert ColLetters(c) == prefix + [Letter(d)];
      LettersRoundTrip(q - 1);
      assert AllLetters(prefix);
      assert LettersValue(prefix) == q;
      LettersStep(prefix, q, d);
    } else {
      assert ColLetters(c) == "" + [Letter(d)];
      LettersStep("", 0, d);
    }
  }

  /** One more letter after a prefix worth `q`: the value `q * 26 + d + 1`. */
  lemma {:induction false} LettersStep(prefix: string, q: nat, d: nat)
    requires d < 26 && AllLetters(prefix) && LettersValue(prefix) == q
    ensures LettersValue(prefix + [Letter(d)]) == q * 26 + d + 1
  {
    LettersSnoc(prefix, Letter(d));
    LetterCode(d);
  }

  lemma {:induction false} LetterCode(d: nat)
    requires d < 26
    ensures IsLetter(Letter(d)) && Letter(d) as int - 64 == d + 1
  {
  }

  /** Appending one letter: the value so far times 26 plus the letter's digit. */
  lemma {:induction false} LettersSnoc(p: string, ch: char)
    requires AllLetters(p) && IsLetter(ch)
    ensures AllLetters(p + [ch]) && LettersValue(p + [ch]) == LettersValue(p) * 26 + (ch as int - 64)
  {
    assert (p + [ch])[..|p|] == p;
  }

  lemma {:induction false} ColLettersOnto(s: string)
    requires |s| > 0 && AllLetters(s)
    ensures LettersValue(s) >= 1 && ColLetters(LettersValue(s) - 1) == s
  {
    var p := s[..|s| - 1];
    var d := s[|s| - 1] as int - 64;
    if |p| > 0 {
      ColLettersOnto(p);
    }
    var c := LettersValue(s) - 1;
    assert c == LettersValue(p) * 26 + (d - 1);
    assert c % 26 == d - 1 && c / 26 == LettersValue(p);
    assert Letter(c % 26) == s[|s| - 1];
    assert s == p + [s[|s| - 1]];
  }

  lemma {:induction false} DecimalRoundTrip(n: nat)
    ensures DigitsValue(Decimal(n)) == n
  {
    var r := Decimal(n);
    var prefix := if n >= 10 then Decimal(n / 10) else "";
    assert r[..|r| - 1] == prefix && r[|r| - 1] == DigitChar(n % 10);
    if n >= 10 {
      DecimalRoundTrip(n / 10);
    }
    assert DigitsValue(prefix) == n / 10;
    assert DigitsValue(r) == DigitsValue(prefix) * 10 + n % 10;
  }

  /** The first column names, as the source documents them. */
  lemma {:induction false} ColLettersExamples()
    ensures ColLetters(0) == "A" && ColLetters(25) == "Z"
    ensures ColLetters(26) == "AA" && ColLetters(701) == "ZZ" && ColLetters(702) == "AAA"
  {
    assert ColLetters(0) == "A";
    assert ColLetters(26) == ColLetters(0) + "A";
    assert ColLetters(701) == ColLetters(25) + "Z";
    assert ColLetters(702) == ColLetters(26) + "A";
  }

  // ---------------------------------------------------------------------------
  // References

  /** getCellRef: column letters followed by the one-based row number. */
  function GetCellRef(indices: Coord): (r: string)
    ensures IsRefShape(r)
  {
    var letters, digits := ColLetters(indices.col), Decimal(indices.row + 1);
    LeadingLettersOfRef(letters, digits);
    letters + digits
  }

  /** Length of the run of capital letters that starts `s`. */
  function LeadingLetters(s: string): (k: nat)
    ensures k <= |s| && AllLetters(s[..k])
    ensures k < |s| ==> !IsLetter(s[k])
  {
    if |s| > 0 && IsLetter(s[0]) then
      var k := 1 + LeadingLetters(s[1..]);
      assert s[..k] == [s[0]] + s[1..][..k - 1];
      k
    else 0
  }

  lemma {:induction false} LeadingLettersOfRef(letters: string, digits: string)
    requires AllLetters(letters) && |digits| > 0 && AllDigits(digits)
    ensures LeadingLetters(letters + digits) == |letters|
  {
    if letters != [] {
      assert (letters + digits)[1..] == letters[1..] + digits;
      LeadingLettersOfRef(letters[1..], digits);
    }
  }

  /** `/^([A-Z]+)(\d+)$/.test(s)`: a digit is not a capital letter, so the only
      possible split is after the leading run of capitals. */
  predicate IsRefShape(s: string)
  {
    var k := LeadingLetters(s);
    0 < k < |s| && AllDigits(s[k..])
  }

  /** The pattern read as the regular expression does: some non-empty run of capitals
      followed by a non-empty run of digits. */
  lemma {:induction false} RefShapeIsPattern(s: string)
    ensures IsRefShape(s) <==>
      exists k :: 0 < k < |s| && AllLetters(s[..k]) && AllDigits(s[k..])
  {
    var n := LeadingLetters(s);
    if k :| 0 < k < |s| && AllLetters(s[..k]) && AllDigits(s[k..]) {
      if n < k {
        assert s[..k][n] == s[n];
      } else if n > k {
        assert s[..n][k] == s[k];
        assert s[k..][0] == s[k];
      }
    }
  }

  /** What getCellRefToIndices returns or throws for `ref`. */
  function ParseRef(ref: string): (r: Result<(int, int)>)
  {
    if !IsRefShape(ref) then Err(MalformedReference(ref))
    else
      var k := LeadingLetters(ref);
      Ok((DigitsValue(ref[k..]) - 1, LettersValue(ref[..k]) - 1))
  }

  /** getCellRefToIndices: the for-of loop over the letters accumulates the column
      number; the digits give the row. */
  method GetCellRefToIndices(ref: string) returns (r: Result<(int, int)>)
    ensures r == ParseRef(ref)
    ensures r.Err? <==> !IsRefShape(ref)
  {
    if !IsRefShape(ref) {
      return Err(MalformedReference(ref));
    }
    var k := LeadingLetters(ref);
    var letters, digits := ref[..k], ref[k..];
    var colNum := 0;
    for i := 0 to |letters|
      invariant colNum == LettersValue(letters[..i])
    {
      assert letters[..i + 1][..i] == letters[..i];
      colNum := colNum * 26 + (letters[i] as int - 64);
    }
    assert letters[..|letters|] == letters;
    var colIndex := colNum - 1;
    var rowIndex := DigitsValue(digits) - 1;
    r := Ok((rowIndex, colIndex));
  }

  /** Parsing a reference that getCellRef wrote gives back its indices. */
  lemma {:induction false} RefRoundTrip(indices: Coord)
    ensures ParseRef(GetCellRef(indices)) == Ok((indices.row, indices.col))
  {
    var letters, digits := ColLetters(indices.col), Decimal(indices.row + 1);
    var s := GetCellRef(indices);
    RefParts(indices);
    LeadingLettersOfRef(letters, digits);
    ParseOfParts(indices, letters, digits, s);
  }

  /** The parse of a reference split into the letters of a column and the digits of
      a row number. */
  lemma {:induction false} ParseOfParts(indices: Coord, letters: string, digits: string, s: string)
    requires letters == ColLetters(indices.col) && digits == Decimal(indices.row + 1)
    requires IsRefShape(s) && s == letters + digits && LeadingLetters(s) == |letters|
    ensures ParseRef(s) == Ok((indices.row, indices.col))
  {
    ParseAt(s, |letters|);
    SliceConcat(s, letters, digits);
    LettersRoundTrip(indices.col);
    DecimalRoundTrip(indices.row + 1);
  }

  /** A reference whose leading capitals end at `k` parses to the values of the two runs. */
  lemma {:induction false} ParseAt(s: string, k: nat)
    requires IsRefShape(s) && LeadingLetters(s) == k
    ensures ParseRef(s) == Ok((DigitsValue(s[k..]) - 1, LettersValue(s[..k]) - 1))
  {
  }

  lemma {:induction false} SliceConcat(s: string, x: string, y: string)
    requires s == x + y
    ensures s[..|x|] == x && s[|x|..] == y
  {
  }

  /** getCellRef is injective: distinct cells have distinct references. */
  lemma {:induction false} RefInjective(a: Coord, b: Coord)
    requires GetCellRef(a) == GetCellRef(b)
    ensures a == b
  {
    RefRoundTrip(a);
    RefRoundTrip(b);
  }

  // ---------------------------------------------------------------------------
  // Label/header merge

  /** The row and column that getCellRefMerge picks for a label at `a` and a header at `b`. */
  function MergedCoord(a: Coord, b: Coord): (m: Coord)
    ensures m.row == a.row || m.row == b.row
    ensures m.col == a.col || m.col == b.col
    ensures m.col >= a.col && m.col >= b.col
  {
    var row := if (a.row - b.row) * (a.col - b.col) > 0 then Min(a.row, b.row) else Max(a.row, b.row);
    Coord(row, Max(a.col, b.col))
  }

  /** The merge rule in words: the larger column always; the smaller row exactly when
      one cell is strictly above and strictly left of the other, the larger row
      otherwise (so equal rows or equal columns take the larger row). */
  lemma {:induction false} MergeRule(a: Coord, b: Coord)
    ensures MergedCoord(a, b).col == Max(a.col, b.col)
    ensures MergedCoord(a, b).row ==
      if (a.row < b.row && a.col < b.col) || (a.row > b.row && a.col > b.col)
      then Min(a.row, b.row) else Max(a.row, b.row)
  {
    ProductSign(a.row - b.row, a.col - b.col);
  }

  /** A product is positive exactly when both factors have the same strict sign. */
  lemma {:induction false} ProductSign(x: int, y: int)
    ensures x * y > 0 <==> (x > 0 && y > 0) || (x < 0 && y < 0)
  {
    if x > 0 && y > 0 {
      assert x * y > 0;
    } else if x < 0 && y < 0 {
      assert x * y == (-x) * (-y);
    } else if x == 0 || y == 0 {
      assert x * y == 0;
    } else if x > 0 {
      assert x * (-y) > 0;
    } else {
      assert (-x) * y > 0;
    }
  }

  lemma {:induction false} MergeSymmetric(a: Coord, b: Coord)
    ensures MergedCoord(a, b) == MergedCoord(b, a)
  {
    MergeRule(a, b);
    MergeRule(b, a);
  }

  lemma {:induction false} RefParts(c: Coord)
    ensures GetCellRef(c) == ColLetters(c.col) + Decimal(c.row + 1)
  {
  }

  /** getCellRefMerge: the row/column choice, then the column letters written by a
      for loop of its own. That loop spells the same letters as colToChar, so the
      result is getCellRef of the merged coordinate and never empty. */
  method GetCellRefMerge(idx1: Coord, idx2: Coord) returns (ref: string)
    ensures ref == GetCellRef(MergedCoord(idx1, idx2))
    ensures |ref| > 0
  {
    // the row/column choice is the pure expression MergedCoord
    var merged := MergedCoord(idx1, idx2);
    var row, col := merged.row, merged.col;
    var letter := "";
    var n: int := col;
    while n >= 0
      invariant -1 <= n
      invariant ColLetters(col) == PendingLetters(n) + letter
      decreases n + 1
    {
      PendingStep(n, letter);
      letter := [Letter(n % 26)] + letter;
      n := n / 26 - 1;
    }
    assert PendingLetters(n) + letter == letter;
    ref := letter + Decimal(row + 1);
    RefParts(merged);
  }

  /** The two worked examples of the merge rule. */
  lemma {:induction false} MergeExamples()
    ensures GetCellRef(MergedCoord(Coord(2, 1), Coord(0, 3))) == "D3"
    ensures GetCellRef(MergedCoord(Coord(0, 1), Coord(2, 3))) == "D1"
  {
    assert MergedCoord(Coord(2, 1), Coord(0, 3)) == Coord(2, 3);
    assert MergedCoord(Coord(0, 1), Coord(2, 3)) == Coord(0, 3);
    assert ColLetters(3) == "D";
    assert Decimal(3) == "3" && Decimal(1) == "1";
  }

  // ---------------------------------------------------------------------------
  // Deduplication of matches

  /** The matches of `list` that survive the filter when the refs in `seen` were
      already taken. */
  function DedupeFrom(list: seq<Match>, seen: set<string>): seq<Match>
  {
    if list == [] then []
    else if list[0].cellRef in seen then DedupeFrom(list[1..], seen)
    else [list[0]] + DedupeFrom(list[1..], seen + {list[0].cellRef})
  }

  function Dedupe(list: seq<Match>): seq<Match>
  {
    DedupeFrom(list, {})
  }

  /** dedupeMatches: a filter whose callback consults and grows a `seen` set. */
  method DedupeMatches(list: seq<Match>) returns (r: seq<Match>)
    ensures r == Dedupe(list)
  {
    var seen: set<string> := {};
    r := [];
    for i := 0 to |list|
      invariant r + DedupeFrom(list[i..], seen) == Dedupe(list)
    {
      assert list[i..][1..] == list[i + 1..];
      var item := list[i];
      if item.cellRef !in seen {
        seen := seen + {item.cellRef};
        r := r + [item];
      }
    }
    assert list[|list|..] == [];
  }

  /** `a` is `b` with some elements left out, order kept. */
  predicate IsSubsequence<T(==)>(a: seq<T>, b: seq<T>)
    decreases |b|
  {
    if a == [] then true
    else if b == [] then false
    else if a[0] == b[0] then IsSubsequence(a[1..], b[1..])
    else IsSubsequence(a, b[1..])
  }

  lemma {:induction false} SubsequenceMembers<T>(a: seq<T>, b: seq<T>)
    requires IsSubsequence(a, b)
    ensures forall x :: x in a ==> x in b
    decreases |b|
  {
    if a != [] && b != [] {
      if a[0] == b[0] {
        SubsequenceMembers(a[1..], b[1..]);
        assert a == [a[0]] + a[1..];
      } else {
        SubsequenceMembers(a, b[1..]);
      }
    }
  }

  /** Pairwise distinct `cellRef`s. */
  predicate DistinctRefs(list: seq<Match>)
  {
    forall i, j :: 0 <= i < j < |list| ==> list[i].cellRef != list[j].cellRef
  }

  /** `m` is the first match in `list` whose ref is `m.cellRef`. */
  predicate IsFirstOccurrence(list: seq<Match>, m: Match)
  {
    exists i :: 0 <= i < |list| && list[i] == m &&
      forall j :: 0 <= j < i ==> list[j].cellRef != m.cellRef
  }

  lemma {:induction false} DedupeFromSubsequence(list: seq<Match>, seen: set<string>)
    ensures IsSubsequence(DedupeFrom(list, seen), list)
  {
    if list != [] {
      var head, tail := list[0], list[1..];
      if head.cellRef in seen {
        DedupeFromSubsequence(tail, seen);
        var r := DedupeFrom(tail, seen);
        if r != [] && r[0] == head {
          // the head also heads `list`, so match it there
          SubsequenceDropHead(r, tail);
        }
      } else {
        DedupeFromSubsequence(tail, seen + {head.cellRef});
        assert ([head] + DedupeFrom(tail, seen + {head.cellRef}))[1..] == DedupeFrom(tail, seen + {head.cellRef});
      }
    }
  }

  lemma {:induction false} SubsequenceDropHead<T>(a: seq<T>, b: seq<T>)
    requires a != [] && IsSubsequence(a, b)
    ensures IsSubsequence(a[1..], b)
    decreases |b|, 1
  {
    if a[0] == b[0] {
      SubsequenceWeaken(a[1..], b);
    } else {
      SubsequenceDropHead(a, b[1..]);
      SubsequenceWeaken(a[1..], b);
    }
  }

  lemma {:induction false} SubsequenceWeaken<T>(a: seq<T>, b: seq<T>)
    requires b != [] && IsSubsequence(a, b[1..])
    ensures IsSubsequence(a, b)
    decreases |b|, 0
  {
    if a != [] && a[0] == b[0] {
      SubsequenceDropHead(a, b[1..]);
    }
  }

  lemma {:induction false} DedupeFromFresh(list: seq<Match>, seen: set<string>)
    ensures var r := DedupeFrom(list, seen);
      DistinctRefs(r) && forall m :: m in r ==> m.cellRef !in seen && m in list
  {
    if list != [] {
      var head, tail := list[0], list[1..];
      if head.cellRef in seen {
        DedupeFromFresh(tail, seen);
      } else {
        var seen' := seen + {head.cellRef};
        DedupeFromFresh(tail, seen');
        var rt := DedupeFrom(tail, seen');
        var r := [head] + rt;
        forall i, j | 0 <= i < j < |r| ensures r[i].cellRef != r[j].cellRef {
          if i > 0 {
            assert r[i] == rt[i - 1] && r[j] == rt[j - 1];
          } else {
            assert r[j] in rt;
          }
        }
      }
    }
  }

  lemma {:induction false} DedupeFromFirst(list: seq<Match>, seen: set<string>)
    ensures forall m :: m in DedupeFrom(list, seen) ==> IsFirstOccurrence(list, m)
  {
    if list != [] {
      var head, tail := list[0], list[1..];
      var seen' := if head.cellRef in seen then seen else seen + {head.cellRef};
      DedupeFromFirst(tail, seen');
      DedupeFromFresh(tail, seen');
      forall m | m in DedupeFrom(list, seen) ensures IsFirstOccurrence(list, m) {
        if m in DedupeFrom(tail, seen') {
          var i :| 0 <= i < |tail| && tail[i] == m && forall j :: 0 <= j < i ==> tail[j].cellRef != m.cellRef;
          assert list[i + 1] == m;
        } else {
          assert m == head && list[0] == m;
        }
      }
    }
  }

  lemma {:induction false} DedupeFromCovers(list: seq<Match>, seen: set<string>)
    ensures forall m :: m in list && m.cellRef !in seen ==>
      exists k :: k in DedupeFrom(list, seen) && k.cellRef == m.cellRef
  {
    if list != [] {
      var head, tail := list[0], list[1..];
      var seen' := if head.cellRef in seen then seen else seen + {head.cellRef};
      DedupeFromCovers(tail, seen');
      forall m | m in list && m.cellRef !in seen
        ensures exists k :: k in DedupeFrom(list, seen) && k.cellRef == m.cellRef
      {
        if m.cellRef == head.cellRef {
          assert head in DedupeFrom(list, seen);
        } else {
          assert m in tail;
          var k :| k in DedupeFrom(tail, seen') && k.cellRef == m.cellRef;
          assert k in DedupeFrom(list, seen);
        }
      }
    }
  }

  /** dedupeMatches keeps, in order, exactly the first match of every ref. */
  lemma {:induction false} DedupeProperties(list: seq<Match>)
    ensures var r := Dedupe(list);
      && IsSubsequence(r, list)
      && DistinctRefs(r)
      && (forall m :: m in r ==> IsFirstOccurrence(list, m))
      && (forall m :: m in list ==> exists k :: k in r && k.cellRef == m.cellRef)
  {
    DedupeFromSubsequence(list, {});
    DedupeFromFresh(list, {});
    DedupeFromFirst(list, {});
    DedupeFromCovers(list, {});
  }
}
