/**
 The Content-Range header of section 14.4 of RFC 9110, as the striped download
 reads it (parseContentRange in jetstream/segmentfetch.go).
 */
module ContentRange {
  import opened Common

  /** Inclusive byte bounds and the size of the whole file. */
  datatype Range = Range(first: nat, last: nat, total: nat)

  predicate Consistent(r: Range) {
    r.first <= r.last < r.total
  }

  predicate IsDigit(c: char) { '0' <= c <= '9' }

  function Digit(c: char): nat
    requires IsDigit(c)
  {
    c as int - '0' as int
  }

  function DigitChar(d: nat): char
    requires d < 10
  {
    ('0' as int + d) as char
  }

  /** Decimal digits, most significant first. */
  function ParseDigits(s: string): Option<nat> {
    if s == [] || !IsDigit(s[|s| - 1]) then None
    else if |s| == 1 then Some(Digit(s[0]))
    else
      var rest := ParseDigits(s[..|s| - 1]);
      if rest.None? then None else Some(10 * rest.value + Digit(s[|s| - 1]))
  }

  /** A signed 64-bit decimal: an optional sign, digits, and a range check. */
  function ParseInt(s: string): Option<int> {
    var negative := s != [] && s[0] == '-';
    var digits := if s != [] && (s[0] == '-' || s[0] == '+') then s[1..] else s;
    var n := ParseDigits(digits);
    if n.None? then None
    else
      var value: int := n.value;
      if negative && value <= MAX_INT64 + 1 then Some(-value)
      else if !negative && value <= MAX_INT64 then Some(value)
      else None
  }

  /** Where a separator first occurs. */
  function Find(s: string, sep: char): (k: nat)
    ensures k <= |s|
    ensures forall i :: 0 <= i < k ==> s[i] != sep
    ensures k < |s| ==> s[k] == sep
  {
    if s == [] || s[0] == sep then 0 else 1 + Find(s[1..], sep)
  }

  const UNIT: string := "bytes "

  function Parse(v: string): (r: Option<Range>)
    ensures r.Some? ==> Consistent(r.value)
  {
    if |v| < |UNIT| || v[..|UNIT|] != UNIT then None
    else
      var rest := v[|UNIT|..];
      var slash := Find(rest, '/');
      if slash == |rest| then None
      else
        var range, totalStr := rest[..slash], rest[slash + 1..];
        var dash := Find(range, '-');
        if dash == |range| then None
        else
          var first, last, total := ParseInt(range[..dash]), ParseInt(range[dash + 1..]), ParseInt(totalStr);
          if first.None? || last.None? || total.None? then None
          else if first.value < 0 || last.value < first.value || total.value <= last.value then None
          else Some(Range(first.value, last.value, total.value))
  }

  /** The three numbers of a header: up to the first '-', up to the first '/', and the rest. */
  predicate Spells(v: string, a: string, b: string, c: string) {
    v == UNIT + (a + "-" + b) + "/" + c && '-' !in a && '/' !in a && '/' !in b
  }

  ghost predicate Names(v: string, r: Range, a: string, b: string, c: string) {
    Spells(v, a, b, c) && ParseInt(a) == Some(r.first) && ParseInt(b) == Some(r.last) && ParseInt(c) == Some(r.total)
  }

  lemma ReadAsSpelt(v: string, r: Range) returns (a: string, b: string, c: string)
    requires Parse(v) == Some(r)
    ensures Names(v, r, a, b, c)
  {
    hide ParseInt, Find;
    var rest := v[|UNIT|..];
    var slash := Find(rest, '/');
    var range := rest[..slash];
    c := rest[slash + 1..];
    var dash := Find(range, '-');
    a, b := range[..dash], range[dash + 1..];
    assert range == a + "-" + b;
    assert v == UNIT + range + "/" + c;
  }

  lemma SpeltIsRead(v: string, r: Range, a: string, b: string, c: string)
    requires Consistent(r) && Names(v, r, a, b, c)
    ensures Parse(v) == Some(r)
  {
    hide ParseInt, Find;
    var range := a + "-" + b;
    assert v[..|UNIT|] == UNIT && v[|UNIT|..] == range + "/" + c;
    FindAfter(range, '/', c);
    FindAfter(a, '-', b);
    assert (range + "/" + c)[..|range|] == range && (range + "/" + c)[|range| + 1..] == c;
    assert range[..|a|] == a && range[|a| + 1..] == b;
  }

  /** The header is accepted exactly when it spells out a consistent range, and read as that range. */
  lemma ParseExactly(v: string, r: Range)
    ensures Parse(v) == Some(r) <==> Consistent(r) && exists a, b, c :: Names(v, r, a, b, c)
  {
    hide Parse, Names;
    if Parse(v) == Some(r) {
      var a, b, c := ReadAsSpelt(v, r);
    }
    if Consistent(r) && exists a, b, c :: Names(v, r, a, b, c) {
      var a, b, c :| Names(v, r, a, b, c);
      SpeltIsRead(v, r, a, b, c);
    }
  }

  /** Exactly the non-empty strings of digits are numbers. */
  lemma {:induction false} DigitsExactly(s: string)
    ensures ParseDigits(s).Some? <==> s != [] && forall i :: 0 <= i < |s| ==> IsDigit(s[i])
  {
    if |s| > 1 { DigitsExactly(s[..|s| - 1]); }
  }

  function Decimal(n: nat): string {
    if n < 10 then [DigitChar(n)] else Decimal(n / 10) + [DigitChar(n % 10)]
  }

  function Render(r: Range): string {
    UNIT + Decimal(r.first) + "-" + Decimal(r.last) + "/" + Decimal(r.total)
  }

  lemma {:induction false} DecimalDigits(n: nat)
    ensures Decimal(n) != [] && forall i :: 0 <= i < |Decimal(n)| ==> IsDigit(Decimal(n)[i])
    ensures ParseDigits(Decimal(n)) == Some(n)
  {
    if n >= 10 {
      DecimalDigits(n / 10);
      var s := Decimal(n);
      assert s[..|s| - 1] == Decimal(n / 10);
    }
  }

  lemma DecimalParses(n: nat)
    requires n <= MAX_INT64
    ensures ParseInt(Decimal(n)) == Some(n)
  {
    DecimalDigits(n);
  }

  lemma {:induction false} FindAfter(a: string, sep: char, b: string)
    requires forall i :: 0 <= i < |a| ==> a[i] != sep
    ensures Find(a + [sep] + b, sep) == |a|
  {
    if a == [] {
      assert a + [sep] + b == [sep] + b;
    } else {
      FindAfter(a[1..], sep, b);
      assert (a + [sep] + b)[1..] == a[1..] + [sep] + b;
    }
  }

  /** A well-formed header is read back as the range it names. */
  lemma ParseRendered(r: Range)
    requires Consistent(r) && r.total <= MAX_INT64
    ensures Parse(Render(r)) == Some(r)
  {
    var f, l, t := Decimal(r.first), Decimal(r.last), Decimal(r.total);
    DecimalDigits(r.first);
    DecimalDigits(r.last);
    DecimalDigits(r.total);
    var range := f + "-" + l;
    hide Decimal, ParseInt, Find;
    assert Render(r)[..|UNIT|] == UNIT;
    assert Render(r)[|UNIT|..] == range + "/" + t;
    FindAfter(range, '/', t);
    FindAfter(f, '-', l);
    assert (range + "/" + t)[..|range|] == range && (range + "/" + t)[|range| + 1..] == t;
    assert range[..|f|] == f && range[|f| + 1..] == l;
    DecimalParses(r.first);
    DecimalParses(r.last);
    DecimalParses(r.total);
  }
}
