/**
 * The text of one stored record. A `GridEye` event carries a header
 * (timestamp, device id, host name, location, MAC, IP, sequence number) and
 * a list of readings; each reading becomes one line
 *
 *   ts0,DeviceId,Hostname,Location,Mac,Ip,Seq,ts,Typ,Id,Seq,Temps,AudioSpectrum
 *
 * joined with commas and with no escaping. Timestamp text (RFC 3339) and
 * the text of a single number are opaque: they are the `Renderers` given.
 * `%d` is modelled as decimal text, and `%v` of a number list as the
 * element texts between brackets, separated by spaces.
 */
module Format {

  /** A protobuf timestamp: seconds and nanoseconds since the Unix epoch. */
  datatype Timestamp = Timestamp(seconds: int, nanos: int)

  /** One element of `GridEye.Data`. */
  datatype Reading = Reading(ts: Timestamp, typ: string, id: string, seqNo: int,
                             temps: seq<real>, audioSpectrum: seq<real>)

  /** A decoded `GridEye` message. */
  datatype GridEye = GridEye(ts: Timestamp, deviceId: string, hostname: string, location: string,
                             mac: string, ip: string, seqNo: int, data: seq<Reading>)

  /**
   * The text formatting the model does not spell out: a timestamp as text
   * (`ptypes.TimestampString` after the round trip through `time.Time`), and
   * one number of a list as `%v` prints it.
   */
  datatype Renderers = Renderers(timestamp: Timestamp -> string, number: real -> string)

  const Comma: char := ','

  predicate NoComma(s: string)
  {
    Comma !in s
  }

  // ----- joining and splitting on a separator -----

  /** The fields with `sep` between each two. */
  function Join(sep: char, fields: seq<string>): string
    decreases |fields|
  {
    if |fields| == 0 then ""
    else if |fields| == 1 then fields[0]
    else fields[0] + [sep] + Join(sep, fields[1..])
  }

  /** The comma-separated fields of `s`; like Go's `strings.Split(s, ",")`, never empty. */
  function Split(s: string): (r: seq<string>)
    ensures |r| >= 1
    ensures forall k :: 0 <= k < |r| ==> NoComma(r[k])
    decreases |s|
  {
    if s == [] then [""]
    else
      var rest := Split(s[1..]);
      if s[0] == Comma then [""] + rest else [[s[0]] + rest[0]] + rest[1..]
  }

  /** Joining the fields of any text with commas gives the text back. */
  lemma {:induction false} JoinSplit(s: string)
    ensures Join(Comma, Split(s)) == s
    decreases |s|
  {
    if s != [] {
      var rest := Split(s[1..]);
      JoinSplit(s[1..]);
      if s[0] != Comma && |rest| > 1 {
        assert rest == [rest[0]] + rest[1..];
        assert Join(Comma, rest) == rest[0] + [Comma] + Join(Comma, rest[1..]);
        assert s == [s[0]] + s[1..];
      }
    }
  }

  /** A comma-free prefix followed by a comma splits off as the first field. */
  lemma {:induction false} SplitAfterField(f: string, t: string)
    requires NoComma(f)
    ensures Split(f + [Comma] + t) == [f] + Split(t)
    decreases |f|
  {
    if f == [] {
      assert f + [Comma] + t == [Comma] + t;
    } else {
      SplitAfterField(f[1..], t);
      assert (f + [Comma] + t)[1..] == f[1..] + [Comma] + t;
      assert [f[0]] + f[1..] == f;
    }
  }

  /** A comma-free text is one field. */
  lemma {:induction false} SplitOneField(f: string)
    requires NoComma(f)
    ensures Split(f) == [f]
    decreases |f|
  {
    if f != [] {
      SplitOneField(f[1..]);
      assert [f[0]] + f[1..] == f;
    }
  }

  /**
   * Splitting a comma-joined list gives the list back exactly when the list
   * is not empty and no field contains a comma: the format does not escape.
   */
  lemma {:induction false} SplitJoin(fields: seq<string>)
    ensures Split(Join(Comma, fields)) == fields
        <==> |fields| >= 1 && forall k :: 0 <= k < |fields| ==> NoComma(fields[k])
    decreases |fields|
  {
    if |fields| >= 1 && forall k :: 0 <= k < |fields| ==> NoComma(fields[k]) {
      if |fields| == 1 {
        SplitOneField(fields[0]);
      } else {
        SplitJoin(fields[1..]);
        assert NoComma(fields[0]);
        SplitAfterField(fields[0], Join(Comma, fields[1..]));
        assert fields == [fields[0]] + fields[1..];
      }
    }
  }

  /** Two non-empty joined lists, joined by one more separator, are the join of both. */
  lemma {:induction false} JoinAppend(sep: char, a: seq<string>, b: seq<string>)
    requires |a| >= 1 && |b| >= 1
    ensures Join(sep, a) + [sep] + Join(sep, b) == Join(sep, a + b)
    decreases |a|
  {
    if |a| > 1 {
      JoinAppend(sep, a[1..], b);
      assert (a + b)[1..] == a[1..] + b;
    }
  }

  /** Fields without commas join, with any separator other than a comma, into text without commas. */
  lemma {:induction false} JoinNoComma(sep: char, fields: seq<string>)
    requires sep != Comma
    ensures (forall k :: 0 <= k < |fields| ==> NoComma(fields[k])) ==> NoComma(Join(sep, fields))
    decreases |fields|
  {
    if |fields| > 1 {
      JoinNoComma(sep, fields[1..]);
    }
  }

  // ----- %d: decimal text -----

  predicate IsDigit(c: char)
  {
    '0' <= c <= '9'
  }

  predicate AllDigits(s: string)
  {
    forall k :: 0 <= k < |s| ==> IsDigit(s[k])
  }

  function DigitChar(d: nat): char
    requires d < 10
  {
    (48 + d) as char
  }

  /** `n` in base 10, most significant digit first, no leading zeros. */
  function FormatNat(n: nat): (r: string)
    ensures |r| >= 1 && AllDigits(r)
    ensures |r| > 1 ==> r[0] != '0'
    decreases n
  {
    if n < 10 then [DigitChar(n)] else FormatNat(n / 10) + [DigitChar(n % 10)]
  }

  /** `%d`: a minus sign for negative numbers, then the decimal digits. */
  function FormatInt(n: int): (r: string)
    ensures NoComma(r)
  {
    if n < 0 then "-" + FormatNat(-n) else FormatNat(n)
  }

  function ParseNat(s: string): nat
    requires AllDigits(s)
    decreases |s|
  {
    if s == [] then 0 else 10 * ParseNat(s[..|s| - 1]) + (s[|s| - 1] as int - 48)
  }

  /** Reads back what `FormatInt` prints; a text that is not a decimal number reads as zero. */
  function ParseInt(s: string): int
  {
    if |s| >= 1 && s[0] == '-' && AllDigits(s[1..]) then -(ParseNat(s[1..]) as int)
    else if AllDigits(s) then ParseNat(s)
    else 0
  }

  lemma {:induction false} ParseFormatNat(n: nat)
    ensures ParseNat(FormatNat(n)) == n
    decreases n
  {
    if n >= 10 {
      ParseFormatNat(n / 10);
      var s := FormatNat(n);
      assert s[..|s| - 1] == FormatNat(n / 10);
    }
  }

  /** The `%d` text of every integer reads back as that integer. */
  lemma FormatIntRoundTrip(n: int)
    ensures ParseInt(FormatInt(n)) == n
  {
    if n < 0 {
      ParseFormatNat(-n);
      assert FormatInt(n)[1..] == FormatNat(-n);
    } else {
      ParseFormatNat(n);
    }
  }

  // ----- %v of a number list -----

  /** `%v` of a `[]float32`: the element texts, space-separated, between brackets. */
  function RenderNumbers(xs: seq<real>, number: real -> string): (r: string)
    ensures |r| >= 2 && r[0] == '[' && r[|r| - 1] == ']'
    ensures (forall k :: 0 <= k < |xs| ==> NoComma(number(xs[k]))) ==> NoComma(r)
  {
    var texts := seq(|xs|, k requires 0 <= k < |xs| => number(xs[k]));
    JoinNoComma(' ', texts);
    "[" + Join(' ', texts) + "]"
  }

  // ----- the record line -----

  /** The seven header fields of line 100 of the source. */
  function HeaderFields(ge: GridEye, fmt: Renderers): seq<string>
  {
    [fmt.timestamp(ge.ts), ge.deviceId, ge.hostname, ge.location, ge.mac, ge.ip, FormatInt(ge.seqNo)]
  }

  /** The six fields of one reading that follow the header on line 105. */
  function ReadingFields(rd: Reading, fmt: Renderers): seq<string>
  {
    [fmt.timestamp(rd.ts), rd.typ, rd.id, FormatInt(rd.seqNo),
     RenderNumbers(rd.temps, fmt.number), RenderNumbers(rd.audioSpectrum, fmt.number)]
  }

  /** `ld`: the header prefix, built once per event. */
  function HeaderLine(ge: GridEye, fmt: Renderers): string
  {
    Join(Comma, HeaderFields(ge, fmt))
  }

  /** `line`: the header prefix, a comma, then the reading's fields. */
  function ReadingLine(ld: string, rd: Reading, fmt: Renderers): string
  {
    ld + [Comma] + Join(Comma, ReadingFields(rd, fmt))
  }

  /** The lines of an event, one per reading, in `Data` order. */
  function EventLines(ge: GridEye, fmt: Renderers): (r: seq<string>)
    ensures |r| == |ge.data|
  {
    var ld := HeaderLine(ge, fmt);
    seq(|ge.data|, k requires 0 <= k < |ge.data| => ReadingLine(ld, ge.data[k], fmt))
  }

  /** A line is the thirteen header and reading fields joined by commas. */
  lemma LineIsJoinedFields(ge: GridEye, rd: Reading, fmt: Renderers)
    ensures ReadingLine(HeaderLine(ge, fmt), rd, fmt) == Join(Comma, HeaderFields(ge, fmt) + ReadingFields(rd, fmt))
  {
    JoinAppend(Comma, HeaderFields(ge, fmt), ReadingFields(rd, fmt));
  }

  /** The free-text parts of a line: timestamps, string fields and number texts. */
  predicate TextFieldsClean(ge: GridEye, rd: Reading, fmt: Renderers)
  {
    && NoComma(fmt.timestamp(ge.ts)) && NoComma(ge.deviceId) && NoComma(ge.hostname)
    && NoComma(ge.location) && NoComma(ge.mac) && NoComma(ge.ip)
    && NoComma(fmt.timestamp(rd.ts)) && NoComma(rd.typ) && NoComma(rd.id)
    && (forall k :: 0 <= k < |rd.temps| ==> NoComma(fmt.number(rd.temps[k])))
    && (forall k :: 0 <= k < |rd.audioSpectrum| ==> NoComma(fmt.number(rd.audioSpectrum[k])))
  }

  /**
   * When no string field, timestamp text or number text contains a comma,
   * a line splits back into exactly its thirteen fields.
   */
  lemma LineSplitsIntoFields(ge: GridEye, rd: Reading, fmt: Renderers)
    requires TextFieldsClean(ge, rd, fmt)
    ensures var fields := HeaderFields(ge, fmt) + ReadingFields(rd, fmt);
      |fields| == 13 && Split(ReadingLine(HeaderLine(ge, fmt), rd, fmt)) == fields
  {
    var fields := HeaderFields(ge, fmt) + ReadingFields(rd, fmt);
    LineIsJoinedFields(ge, rd, fmt);
    assert forall k :: 0 <= k < |fields| ==> NoComma(fields[k]);
    SplitJoin(fields);
  }

  /**
   * No escaping: a comma inside any string field, timestamp text or number
   * text makes the line split into something other than its fields.
   */
  lemma LineAmbiguousWithComma(ge: GridEye, rd: Reading, fmt: Renderers)
    requires !TextFieldsClean(ge, rd, fmt)
    ensures Split(ReadingLine(HeaderLine(ge, fmt), rd, fmt)) != HeaderFields(ge, fmt) + ReadingFields(rd, fmt)
  {
    var fields := HeaderFields(ge, fmt) + ReadingFields(rd, fmt);
    LineIsJoinedFields(ge, rd, fmt);
    SplitJoin(fields);
    if forall k :: 0 <= k < |fields| ==> NoComma(fields[k]) {
      assert TextFieldsClean(ge, rd, fmt) by {
        assert NoComma(fields[0]) && NoComma(fields[1]) && NoComma(fields[2]) && NoComma(fields[3]);
        assert NoComma(fields[4]) && NoComma(fields[5]) && NoComma(fields[7]) && NoComma(fields[8]);
        assert NoComma(fields[9]) && NoComma(fields[11]) && NoComma(fields[12]);
        NumbersClean(rd.temps, fmt.number);
        NumbersClean(rd.audioSpectrum, fmt.number);
      }
    }
  }

  /** A list's `%v` text has a comma only if some element's text has one. */
  lemma NumbersClean(xs: seq<real>, number: real -> string)
    requires NoComma(RenderNumbers(xs, number))
    ensures forall k :: 0 <= k < |xs| ==> NoComma(number(xs[k]))
  {
    var texts := seq(|xs|, k requires 0 <= k < |xs| => number(xs[k]));
    forall k | 0 <= k < |xs|
      ensures NoComma(number(xs[k]))
    {
      JoinContains(' ', texts, k);
    }
  }

  /** Every field appears inside the joined text. */
  lemma {:induction false} JoinContains(sep: char, fields: seq<string>, k: nat)
    requires k < |fields|
    ensures forall c :: c in fields[k] ==> c in Join(sep, fields)
    decreases |fields|
  {
    if |fields| > 1 && k > 0 {
      JoinContains(sep, fields[1..], k - 1);
    }
  }
}
