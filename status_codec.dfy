/** How a `Status` is written to and read back from the sample table's
    `status` column (src/db.rs:204-235): a discriminant as first character
    and, for Closed and Merged, the date from offset 7 on. */
module StatusCodec {

  import opened Wrappers
  import opened Data

  /** A cell value as SQLite hands it to `FromSql`. */
  datatype SqlValue = Null | Integer(i: int) | Real(r: real) | Text(s: string) | Blob(bytes: seq<int>)

  datatype FromSqlError = InvalidType

  /** Both prefixes that carry a date have this length. */
  const DATE_OFFSET: nat := 7

  /** `ToSql for Status`. */
  function Encode(st: Status): (t: string)
    ensures st.Open? ==> t == "Open"
    ensures st.Closed? ==> t == "Closed " + st.closedAt.date
    ensures st.Merged? ==> t == "Merged " + st.mergedAt.date
    ensures WellFormedText(t)
  {
    match st
    case Open => "Open"
    case Closed(d) => "Closed " + d.date
    case Merged(d) => "Merged " + d.date
  }

  /** What `column_result` needs in order not to panic: the slice `s[0..1]`
      needs a non-empty text and `s[7..]` (taken for 'C' and 'M') needs at
      least seven characters. Non-text values are always safe. */
  predicate DecodeDefined(v: SqlValue)
  {
    v.Text? ==> |v.s| >= 1 && ((v.s[0] == 'C' || v.s[0] == 'M') ==> |v.s| >= DATE_OFFSET)
  }

  /** The texts that decode without panicking and without error. */
  predicate WellFormedText(t: string)
  {
    |t| >= 1 && (t[0] == 'O' || ((t[0] == 'C' || t[0] == 'M') && |t| >= DATE_OFFSET))
  }

  /** `FromSql for Status`: dispatches on the first character only. */
  function Decode(v: SqlValue): (r: Result<Status, FromSqlError>)
    requires DecodeDefined(v)
    ensures r.Failure? <==> !v.Text? || (v.s[0] != 'O' && v.s[0] != 'C' && v.s[0] != 'M')
    ensures r.Failure? ==> r.error == InvalidType
    ensures r.Success? && r.value.Open? <==> v.Text? && v.s[0] == 'O'
    ensures r.Success? && r.value.Closed? <==> v.Text? && v.s[0] == 'C'
    ensures r.Success? && r.value.Merged? <==> v.Text? && v.s[0] == 'M'
    ensures r.Success? && !r.value.Open? ==> StatusDate(r.value) == Some(Date(v.s[DATE_OFFSET..]))
  {
    if v.Text? then
      var s := v.s;
      if s[0] == 'O' then Success(Open)
      else if s[0] == 'C' then Success(Closed(NewDate(s[DATE_OFFSET..])))
      else if s[0] == 'M' then Success(Merged(NewDate(s[DATE_OFFSET..])))
      else Failure(InvalidType)
    else
      Failure(InvalidType)
  }

  /** A text decodes to a status exactly when it is well formed. */
  lemma WellFormedTextDecodes(t: string)
    requires DecodeDefined(Text(t))
    ensures WellFormedText(t) <==> Decode(Text(t)).Success?
  {
  }

  /** Decoding the encoding of any status gives that status back: both
      prefixes are seven characters, so the date is recovered exactly. */
  lemma DecodeEncode(st: Status)
    ensures DecodeDefined(Text(Encode(st)))
    ensures Decode(Text(Encode(st))) == Success(st)
  {
    match st
    case Open =>
    case Closed(d) =>
      assert ("Closed " + d.date)[DATE_OFFSET..] == d.date;
    case Merged(d) =>
      assert ("Merged " + d.date)[DATE_OFFSET..] == d.date;
  }

  /** Distinct statuses are written as distinct texts. */
  lemma EncodeInjective(a: Status, b: Status)
    ensures Encode(a) == Encode(b) <==> a == b
  {
    DecodeEncode(a);
    DecodeEncode(b);
  }

  /** Any text starting with 'O' reads as Open, whatever follows. */
  lemma DecodeIgnoresRestAfterO(t: string)
    requires |t| >= 1 && t[0] == 'O'
    ensures Decode(Text(t)) == Success(Open)
  {
  }

  /** So decoding and re-encoding is not the identity on arbitrary text. */
  lemma DecodeThenEncodeNotIdentity()
    ensures Decode(Text("Oops")).Success?
    ensures Encode(Decode(Text("Oops")).value) != "Oops"
  {
    assert Encode(Open) == "Open";
    assert "Open"[1] != "Oops"[1];
  }

  /** Non-text cells and texts with another first character are rejected. */
  lemma DecodeRejects(v: SqlValue)
    requires !v.Text? || (|v.s| >= 1 && v.s[0] != 'O' && v.s[0] != 'C' && v.s[0] != 'M')
    ensures DecodeDefined(v)
    ensures Decode(v) == Failure(InvalidType)
  {
  }
}
