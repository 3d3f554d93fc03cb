/** Comma-separated identifier lists, as checkout metadata carries them, and small facts about sequences. */
module Text {

  predicate CommaFree(s: string) {
    ',' !in s
  }

  predicate NoDuplicates<T(==)>(q: seq<T>) {
    forall i, j :: 0 <= i < j < |q| ==> q[i] != q[j]
  }

  function Elements<T>(q: seq<T>): set<T> {
    set x | x in q
  }

  /** Array.prototype.join(','). */
  function Join(parts: seq<string>): string {
    if |parts| == 0 then ""
    else if |parts| == 1 then parts[0]
    else parts[0] + "," + Join(parts[1..])
  }

  /** String.prototype.split(','): the empty text yields one empty part. */
  function Split(text: string): (parts: seq<string>)
    ensures |parts| > 0
  {
    if text == "" then [""]
    else
      var rest := Split(text[1..]);
      if text[0] == ',' then [""] + rest else [[text[0]] + rest[0]] + rest[1..]
  }

  lemma {:induction false} SplitCommaFree(s: string)
    requires CommaFree(s)
    ensures Split(s) == [s]
  {
    if s != "" {
      SplitCommaFree(s[1..]);
      assert s == [s[0]] + s[1..];
    }
  }

  lemma {:induction false} SplitFirst(s: string, rest: string)
    requires CommaFree(s)
    ensures Split(s + "," + rest) == [s] + Split(rest)
  {
    var text := s + "," + rest;
    if s == "" {
      assert text[1..] == rest;
    } else {
      SplitFirst(s[1..], rest);
      assert text[1..] == s[1..] + "," + rest;
      assert s == [s[0]] + s[1..];
    }
  }

  /** Parsing undoes printing on every non-empty list of comma-free parts. */
  lemma {:induction false} SplitUndoesJoin(parts: seq<string>)
    requires |parts| > 0
    requires forall p :: p in parts ==> CommaFree(p)
    ensures Split(Join(parts)) == parts
  {
    if |parts| == 1 {
      SplitCommaFree(parts[0]);
    } else {
      SplitUndoesJoin(parts[1..]);
      SplitFirst(parts[0], Join(parts[1..]));
    }
  }

  /** Printing undoes parsing on every text, and parsing never leaves a comma in a part. */
  lemma {:induction false} JoinUndoesSplit(text: string)
    ensures Join(Split(text)) == text
    ensures forall p :: p in Split(text) ==> ',' !in p
  {
    if text != "" {
      var rest := Split(text[1..]);
      JoinUndoesSplit(text[1..]);
      assert text == [text[0]] + text[1..];
      if text[0] == ',' {
        assert ([""] + rest)[1..] == rest;
      } else {
        var first := [text[0]] + rest[0];
        assert Split(text)[1..] == rest[1..];
        assert CommaFree(rest[0]);
      }
    }
  }

  lemma {:induction false} DistinctCount<T>(q: seq<T>)
    ensures |Elements(q)| <= |q|
    ensures |Elements(q)| == |q| <==> NoDuplicates(q)
  {
    if q != [] {
      var rest := q[1..];
      DistinctCount(rest);
      if q[0] in rest {
        assert Elements(q) == Elements(rest);
        var k :| 0 <= k < |rest| && rest[k] == q[0];
        assert q[0] == q[k + 1];
      } else {
        assert Elements(q) == Elements(rest) + {q[0]};
        if NoDuplicates(rest) {
          forall i, j | 0 <= i < j < |q| ensures q[i] != q[j] {
            assert q[j] == rest[j - 1];
            if i > 0 { assert q[i] == rest[i - 1]; }
          }
        }
        if NoDuplicates(q) {
          forall i, j | 0 <= i < j < |rest| ensures rest[i] != rest[j] {
            assert q[i + 1] != q[j + 1];
          }
        }
      }
    }
  }

  lemma {:induction false} SubsetSize<T>(a: set<T>, b: set<T>)
    requires a <= b
    ensures |a| <= |b|
    ensures |a| == |b| ==> a == b
    decreases a
  {
    if x :| x in a {
      SubsetSize(a - {x}, b - {x});
    }
  }

  /** Counting the found ones tells whether all wanted ones were found. */
  lemma AllFoundIff<T>(wanted: set<T>, present: set<T>)
    ensures |wanted * present| == |wanted| <==> wanted <= present
  {
    SubsetSize(wanted * present, wanted);
    assert wanted <= present ==> wanted * present == wanted;
  }

  // ---------------------------------------------------------------- decimal numerals

  function Digit(d: nat): char
    requires d < 10
  {
    '0' + d as char
  }

  predicate IsDigit(c: char) {
    '0' <= c <= '9'
  }

  /** String(n) for a non-negative integer. */
  function Decimal(n: nat): (text: string)
    ensures text != "" && forall c :: c in text ==> IsDigit(c)
  {
    if n < 10 then [Digit(n)] else Decimal(n / 10) + [Digit(n % 10)]
  }

  function DecimalValue(text: string): nat
    requires forall c :: c in text ==> IsDigit(c)
  {
    if text == "" then 0
    else
      assert IsDigit(text[|text| - 1]);
      10 * DecimalValue(text[..|text| - 1]) + ((text[|text| - 1] as int) - ('0' as int))
  }

  /** Reading a printed number gives the number back, so printing is injective. */
  lemma {:induction false} DecimalRoundTrip(n: nat)
    ensures DecimalValue(Decimal(n)) == n
  {
    var text := Decimal(n);
    if n >= 10 {
      DecimalRoundTrip(n / 10);
      assert text[..|text| - 1] == Decimal(n / 10);
    } else {
      assert text[..|text| - 1] == "";
    }
  }

  lemma DecimalInjective(m: nat, n: nat)
    requires Decimal(m) == Decimal(n)
    ensures m == n
  {
    DecimalRoundTrip(m);
    DecimalRoundTrip(n);
  }
}
