/** Mapping an organisation and a bucket to a database name. */
module DatabaseNames {
  import opened Basics

  /** A byte of the UTF-8 form of a name. */
  type Octet = x: int | 0 <= x < 256

  datatype NameError = NotSpecified | LengthConstraint(name: string) | BadChars(offset: nat, name: string)
  datatype NameResult = Ok(name: string) | Err(error: NameError)

  predicate IsAlphanumeric(b: Octet) {
    48 <= b <= 57 || 65 <= b <= 90 || 97 <= b <= 122
  }

  /** Upper-case hexadecimal. */
  function HexDigit(n: nat): char
    requires n < 16
  {
    if n < 10 then (48 + n) as char else (55 + n) as char
  }

  /** An ASCII letter or digit stands for itself, every other byte becomes `%XX`. */
  function EncodeByte(b: Octet): string {
    if IsAlphanumeric(b) then [b as char] else ['%', HexDigit(b / 16), HexDigit(b % 16)]
  }

  function PercentEncode(s: seq<Octet>): string {
    if s == [] then "" else EncodeByte(s[0]) + PercentEncode(s[1..])
  }

  const SEPARATOR: char := '_'

  /** `char::is_control`: the Unicode category Cc. */
  predicate IsControl(c: char) {
    c as int < 32 || 127 <= c as int < 160
  }

  function FirstControl(s: string): (n: nat)
    ensures n <= |s|
  {
    if s == "" || IsControl(s[0]) then 0 else 1 + FirstControl(s[1..])
  }

  function DatabaseName(name: string): NameResult {
    if |name| < 1 || |name| > 64 then Err(LengthConstraint(name))
    else if FirstControl(name) < |name| then Err(BadChars(FirstControl(name), name))
    else Ok(name)
  }

  function OrgAndBucketToDatabase(org: seq<Octet>, bucket: seq<Octet>): NameResult {
    var o, b := PercentEncode(org), PercentEncode(bucket);
    if o == "" || b == "" then Err(NotSpecified) else DatabaseName(o + [SEPARATOR] + b)
  }

  // ---------------------------------------------------------------------------------------------
  // Reading a name back
  // ---------------------------------------------------------------------------------------------

  function HexValue(c: char): Option<nat> {
    if '0' <= c <= '9' then Some(c as int - 48)
    else if 'A' <= c <= 'F' then Some(c as int - 55)
    else None
  }

  /** Decodes up to the end or the separator, and says what is left. */
  function Decode(s: string): (r: (seq<Octet>, string))
    decreases |s|
  {
    if s == "" || s[0] == SEPARATOR then ([], s)
    else if |s| >= 3 && s[0] == '%' && HexValue(s[1]).Some? && HexValue(s[2]).Some? then
      var (more, rest) := Decode(s[3..]);
      ([16 * HexValue(s[1]).value + HexValue(s[2]).value] + more, rest)
    else if s[0] as int < 256 then
      var (more, rest) := Decode(s[1..]);
      ([s[0] as int] + more, rest)
    else ([], s)
  }

  /** No encoded byte has the separator or a control character in it. */
  predicate Clean(s: string) {
    forall c <- s :: c != SEPARATOR && !IsControl(c)
  }

  lemma EncodeByteIsClean(b: Octet)
    ensures Clean(EncodeByte(b)) && EncodeByte(b) != ""
  {
  }

  lemma {:induction false} EncodedIsClean(s: seq<Octet>)
    ensures Clean(PercentEncode(s)) && (PercentEncode(s) == "" <==> s == [])
  {
    hide EncodeByte;
    if s != [] {
      EncodeByteIsClean(s[0]);
      EncodedIsClean(s[1..]);
    }
  }

  lemma HexInverts(n: nat)
    requires n < 16
    ensures HexValue(HexDigit(n)) == Some(n)
  {
  }

  lemma DecodePlain(b: Octet, t: string)
    requires IsAlphanumeric(b)
    ensures Decode([b as char] + t) == ([b] + Decode(t).0, Decode(t).1)
  {
    var i := [b as char] + t;
    assert i[0] as int == b && i[1..] == t;
  }

  lemma DecodeEscape(b: Octet, t: string)
    ensures Decode(['%', HexDigit(b / 16), HexDigit(b % 16)] + t) == ([b] + Decode(t).0, Decode(t).1)
  {
    HexInverts(b / 16);
    HexInverts(b % 16);
    hide HexDigit, HexValue;
    var i := ['%', HexDigit(b / 16), HexDigit(b % 16)] + t;
    assert i[1] == HexDigit(b / 16) && i[2] == HexDigit(b % 16) && i[3..] == t;
  }

  lemma DecodeByte(b: Octet, t: string)
    ensures Decode(EncodeByte(b) + t) == ([b] + Decode(t).0, Decode(t).1)
  {
    hide Decode, HexDigit;
    if IsAlphanumeric(b) {
      DecodePlain(b, t);
    } else {
      DecodeEscape(b, t);
    }
  }

  lemma {:induction false} DecodeInverts(s: seq<Octet>, t: string)
    requires t == "" || t[0] == SEPARATOR
    ensures Decode(PercentEncode(s) + t) == (s, t)
  {
    hide EncodeByte;
    if s == [] {
      assert PercentEncode(s) + t == t;
    } else {
      assert PercentEncode(s) + t == EncodeByte(s[0]) + (PercentEncode(s[1..]) + t);
      DecodeByte(s[0], PercentEncode(s[1..]) + t);
      DecodeInverts(s[1..], t);
      assert [s[0]] + s[1..] == s;
    }
  }

  lemma {:induction false} CleanHasNoControl(s: string)
    requires forall c <- s :: !IsControl(c)
    ensures FirstControl(s) == |s|
  {
    if s != "" {
      assert s[0] in s;
      CleanHasNoControl(s[1..]);
    }
  }

  /** A pair is accepted exactly if neither name is empty and the encoded name fits; no other error occurs. */
  lemma AcceptedIff(org: seq<Octet>, bucket: seq<Octet>)
    ensures var r := OrgAndBucketToDatabase(org, bucket); var n := |PercentEncode(org)| + 1 + |PercentEncode(bucket)|;
            && (r.Ok? <==> org != [] && bucket != [] && n <= 64)
            && (r == Err(NotSpecified) <==> org == [] || bucket == [])
            && (r.Err? && r.error != NotSpecified ==> r.error.LengthConstraint?)
  {
    EncodedIsClean(org);
    EncodedIsClean(bucket);
    CleanHasNoControl(PercentEncode(org) + [SEPARATOR] + PercentEncode(bucket));
  }

  /** Both names can be read back from the database name. */
  lemma NameDecodes(org: seq<Octet>, bucket: seq<Octet>)
    requires OrgAndBucketToDatabase(org, bucket).Ok?
    ensures var name := OrgAndBucketToDatabase(org, bucket).name; var (o, rest) := Decode(name);
            o == org && rest != "" && Decode(rest[1..]) == (bucket, "")
  {
    hide Decode;
    var o, b := PercentEncode(org), PercentEncode(bucket);
    DecodeInverts(org, [SEPARATOR] + b);
    assert o + [SEPARATOR] + b == o + ([SEPARATOR] + b);
    DecodeInverts(bucket, "");
    assert b + "" == b && ([SEPARATOR] + b)[1..] == b;
  }

  /** Different pairs never get the same database. */
  lemma NamesAreUnambiguous(org: seq<Octet>, bucket: seq<Octet>, org': seq<Octet>, bucket': seq<Octet>)
    requires OrgAndBucketToDatabase(org, bucket).Ok?
             && OrgAndBucketToDatabase(org', bucket') == OrgAndBucketToDatabase(org, bucket)
    ensures org' == org && bucket' == bucket
  {
    hide OrgAndBucketToDatabase, Decode;
    NameDecodes(org, bucket);
    NameDecodes(org', bucket');
  }
}
