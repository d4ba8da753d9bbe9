/**
 * The CSV text of a sampled time series,
 * `generate_csv_from_timestamped_data` in evm/src/samples/utils.rs.
 */
module Csv {
  import opened SolValues
  import opened Samples

  function DigitChar(d: nat): (c: char)
    requires d < 10
    ensures '0' <= c <= '9'
  {
    "0123456789"[d]
  }

  /** Rust's `u64::to_string`: base 10, no sign, no leading zeros. */
  function Decimal(n: nat): (s: string)
    ensures |s| > 0 && forall i | 0 <= i < |s| :: '0' <= s[i] <= '9'
    ensures |s| > 1 ==> s[0] != '0'
  {
    if n < 10 then [DigitChar(n)] else Decimal(n / 10) + [DigitChar(n % 10)]
  }

  /** Reads a string of decimal digits back as a number. */
  function ParseDecimal(s: string): nat
    requires forall i | 0 <= i < |s| :: '0' <= s[i] <= '9'
  {
    if s == [] then 0
    else ParseDecimal(s[..|s| - 1]) * 10 + (s[|s| - 1] as int - '0' as int)
  }

  /** The block number can be read back from its text. */
  lemma {:induction false} DecimalRoundTrip(n: nat)
    ensures ParseDecimal(Decimal(n)) == n
  {
    if n >= 10 {
      var s := Decimal(n);
      assert s[..|s| - 1] == Decimal(n / 10);
      DecimalRoundTrip(n / 10);
    }
  }

  /** Number of occurrences of `c` in `s`. */
  function Count(c: char, s: string): nat
  {
    if s == [] then 0 else Count(c, s[..|s| - 1]) + (if s[|s| - 1] == c then 1 else 0)
  }

  lemma {:induction false} CountAppend(c: char, a: string, b: string)
    ensures Count(c, a + b) == Count(c, a) + Count(c, b)
    decreases |b|
  {
    if b == [] {
      assert a + b == a;
    } else {
      assert (a + b)[..|a + b| - 1] == a + b[..|b| - 1];
      CountAppend(c, a, b[..|b| - 1]);
    }
  }

  lemma {:induction false} CountAbsent(c: char, s: string)
    requires c !in s
    ensures Count(c, s) == 0
    decreases |s|
  {
    if s != [] {
      assert s[..|s| - 1] + [s[|s| - 1]] == s;
      CountAbsent(c, s[..|s| - 1]);
    }
  }

  /** The fold that writes "," and then the value after everything written so far. */
  function Fields(r: Renderer, vs: seq<Value>): string
  {
    if vs == [] then "" else Fields(r, vs[..|vs| - 1]) + "," + Format(r, vs[|vs| - 1])
  }

  /** One CSV line: the block number, the fields, then a line break. */
  function Line(r: Renderer, s: Sample): string
  {
    Decimal(s.block) + Fields(r, s.values) + "\n"
  }

  /** The text that the loop over `data` builds: its lines, in order. */
  function CsvText(r: Renderer, data: seq<Sample>): string
  {
    if data == [] then "" else CsvText(r, data[..|data| - 1]) + Line(r, data[|data| - 1])
  }

  /**
   * `generate_csv_from_timestamped_data`: appends one line per sample to
   * an initially empty buffer.
   */
  method GenerateCsv(r: Renderer, data: seq<Sample>) returns (csv: string)
    ensures csv == CsvText(r, data)
  {
    csv := "";
    for i := 0 to |data|
      invariant csv == CsvText(r, data[..i])
    {
      var (timestamp, element) := (data[i].block, data[i].values);
      csv := csv + Decimal(timestamp);
      var elems := Fields(r, element);
      csv := csv + elems + "\n";
      assert data[..i + 1][..i] == data[..i];
    }
    assert data[..|data|] == data;
  }

  /** The fields of `a + b` are the fields of `a` followed by those of `b`. */
  lemma {:induction false} FieldsAppend(r: Renderer, a: seq<Value>, b: seq<Value>)
    ensures Fields(r, a + b) == Fields(r, a) + Fields(r, b)
    decreases |b|
  {
    if b == [] {
      assert a + b == a;
    } else {
      assert (a + b)[..|a + b| - 1] == a + b[..|b| - 1];
      FieldsAppend(r, a, b[..|b| - 1]);
    }
  }

  /** Value `i` of a line appears as "," and its text, between the values before and after it. */
  lemma FieldsAt(r: Renderer, vs: seq<Value>, i: nat)
    requires i < |vs|
    ensures Fields(r, vs) == Fields(r, vs[..i]) + "," + Format(r, vs[i]) + Fields(r, vs[i + 1..])
  {
    assert vs == vs[..i] + [vs[i]] + vs[i + 1..];
    FieldsAppend(r, vs[..i] + [vs[i]], vs[i + 1..]);
    FieldsAppend(r, vs[..i], [vs[i]]);
    assert [vs[i]][..0] == [];
  }

  /** The CSV text distributes over concatenation of sample lists; an empty list gives "". */
  lemma {:induction false} CsvAppend(r: Renderer, a: seq<Sample>, b: seq<Sample>)
    ensures CsvText(r, a + b) == CsvText(r, a) + CsvText(r, b)
    ensures CsvText(r, []) == ""
    decreases |b|
  {
    if b == [] {
      assert a + b == a;
    } else {
      assert (a + b)[..|a + b| - 1] == a + b[..|b| - 1];
      CsvAppend(r, a, b[..|b| - 1]);
    }
  }

  /** Sample `i` is written as line `i`, between the lines of the samples before and after it. */
  lemma CsvAt(r: Renderer, data: seq<Sample>, i: nat)
    requires i < |data|
    ensures CsvText(r, data) == CsvText(r, data[..i]) + Line(r, data[i]) + CsvText(r, data[i + 1..])
  {
    assert data == data[..i] + [data[i]] + data[i + 1..];
    CsvAppend(r, data[..i] + [data[i]], data[i + 1..]);
    CsvAppend(r, data[..i], [data[i]]);
    assert [data[i]][..0] == [];
  }

  /** Without line breaks in the formatted values, a line holds one '\n', at its end. */
  lemma {:induction false} LineHasOneNewline(r: Renderer, s: Sample)
    requires forall j | 0 <= j < |s.values| :: '\n' !in Format(r, s.values[j])
    ensures Count('\n', Line(r, s)) == 1
    ensures Line(r, s)[|Line(r, s)| - 1] == '\n'
  {
    FieldsNoNewline(r, s.values);
    var head := Decimal(s.block) + Fields(r, s.values);
    assert '\n' !in head by {
      assert forall k | 0 <= k < |Decimal(s.block)| :: Decimal(s.block)[k] != '\n';
    }
    CountAbsent('\n', head);
    CountAppend('\n', head, "\n");
  }

  lemma {:induction false} FieldsNoNewline(r: Renderer, vs: seq<Value>)
    requires forall j | 0 <= j < |vs| :: '\n' !in Format(r, vs[j])
    ensures '\n' !in Fields(r, vs)
    decreases |vs|
  {
    if vs != [] {
      FieldsNoNewline(r, vs[..|vs| - 1]);
    }
  }

  /**
   * When no formatted value holds a line break, the CSV text holds exactly
   * one '\n' per sample.
   */
  lemma {:induction false} CsvNewlineCount(r: Renderer, data: seq<Sample>)
    requires forall i, j | 0 <= i < |data| && 0 <= j < |data[i].values| :: '\n' !in Format(r, data[i].values[j])
    ensures Count('\n', CsvText(r, data)) == |data|
    decreases |data|
  {
    if data != [] {
      var n := |data| - 1;
      CsvNewlineCount(r, data[..n]);
      LineHasOneNewline(r, data[n]);
      CountAppend('\n', CsvText(r, data[..n]), Line(r, data[n]));
    }
  }

  /** The base-10 text of the numbers the fixture below uses. */
  lemma FixtureDecimals()
    ensures Decimal(100) == "100" && Decimal(200) == "200"
    ensures Decimal(42) == "42" && Decimal(43) == "43"
  {
  }

  /** Two samples of one unsigned value each, rendered in base 10. */
  lemma TwoSampleFixture(r: Renderer)
    requires r.unsigned(42) == Decimal(42) && r.unsigned(43) == Decimal(43)
    ensures CsvText(r, [Sample(100, [Uint(42, 256)]), Sample(200, [Uint(43, 256)])]) == "100,42\n200,43\n"
  {
    var data := [Sample(100, [Uint(42, 256)]), Sample(200, [Uint(43, 256)])];
    FixtureDecimals();
    assert Format(r, Uint(42, 256)) == "42" && Format(r, Uint(43, 256)) == "43";
    assert Fields(r, [Uint(42, 256)]) == ",42";
    assert Fields(r, [Uint(43, 256)]) == ",43";
    assert Line(r, data[0]) == "100,42\n";
    assert Line(r, data[1]) == "200,43\n";
    assert data[..1] == [data[0]] && data[..1][..0] == [];
    assert CsvText(r, data[..1]) == "100,42\n";
  }
}
