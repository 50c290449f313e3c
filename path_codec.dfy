/**
 * The path codec: a row's lineage is stored as one string, the ancestor ids
 * from the root down to the parent joined by '/'.  Decoding splits that string
 * the way Ruby's String#split('/') does and casts every field according to the
 * primary key's column type (`parse_ancestry_column`, `cast_primary_key`);
 * encoding joins the ids' string forms with '/' (Array#join).
 */
module PathCodec {
  import opened Wrappers

  const Delimiter: char := '/'

  /** The primary key's column type: `:string`, `:uuid` and `:text` keys are kept
      as text, every other key type is cast with `to_i`. */
  datatype KeyKind = NumericKey | TextKey

  /** A primary-key value. */
  datatype Key = Num(n: nat) | Text(s: string)

  predicate IsDigit(c: char) {
    '0' <= c <= '9'
  }

  predicate AllDigits(s: string) {
    forall i :: 0 <= i < |s| ==> IsDigit(s[i])
  }

  predicate NoDelimiter(s: string) {
    forall i :: 0 <= i < |s| ==> s[i] != Delimiter
  }

  function DigitValue(c: char): (d: nat)
    requires IsDigit(c)
    ensures d < 10
  {
    c as int - '0' as int
  }

  function DigitChar(d: nat): (c: char)
    requires d < 10
    ensures IsDigit(c) && DigitValue(c) == d
  {
    ('0' as int + d) as char
  }

  // ---------------------------------------------------------------------------
  // Integers and their decimal form (Integer#to_s and String#to_i)
  // ---------------------------------------------------------------------------

  /** Integer#to_s on a non-negative integer: the shortest decimal form. */
  function NatToString(n: nat): (s: string)
    ensures s != [] && AllDigits(s)
    ensures s[0] == '0' <==> n == 0
    ensures n == 0 ==> s == "0"
    decreases n
  {
    if n < 10 then [DigitChar(n)] else NatToString(n / 10) + [DigitChar(n % 10)]
  }

  /** The longest run of decimal digits at the start of `s`. */
  function LeadingDigits(s: string): (d: string)
    ensures d <= s && AllDigits(d)
    ensures |d| < |s| ==> !IsDigit(s[|d|])
  {
    if s == [] || !IsDigit(s[0]) then [] else [s[0]] + LeadingDigits(s[1..])
  }

  /** The value of a string of decimal digits, most significant digit first. */
  function DigitsValue(d: string): nat
    requires AllDigits(d)
  {
    if d == [] then 0 else DigitsValue(d[..|d| - 1]) * 10 + DigitValue(d[|d| - 1])
  }

  /** String#to_i restricted to what a path field can hold: the value of the
      leading digits, 0 when there are none ("abc".to_i == 0, "12x".to_i == 12). */
  function ToI(s: string): nat {
    DigitsValue(LeadingDigits(s))
  }

  /** A decimal field as Integer#to_s would print it: no leading zero except "0". */
  predicate Canonical(t: string) {
    t != [] && AllDigits(t) && (t[0] == '0' ==> |t| == 1)
  }

  lemma {:induction false} LeadingDigitsOfDigits(s: string)
    requires AllDigits(s)
    ensures LeadingDigits(s) == s
    decreases |s|
  {
    if s != [] {
      LeadingDigitsOfDigits(s[1..]);
      assert s == [s[0]] + s[1..];
    }
  }

  lemma {:induction false} DigitsValueOfNatToString(n: nat)
    ensures DigitsValue(NatToString(n)) == n
    decreases n
  {
    if n >= 10 {
      DigitsValueOfNatToString(n / 10);
      var p := NatToString(n / 10);
      var s := p + [DigitChar(n % 10)];
      assert s[..|s| - 1] == p;
    }
  }

  /** Casting the decimal form of an id back with to_i gives the id. */
  lemma ToIOfNatToString(n: nat)
    ensures ToI(NatToString(n)) == n
  {
    LeadingDigitsOfDigits(NatToString(n));
    DigitsValueOfNatToString(n);
  }

  /** A canonical decimal field survives the to_i / to_s round trip. */
  lemma {:induction false} NatToStringOfCanonical(t: string)
    requires Canonical(t)
    ensures NatToString(ToI(t)) == t
    decreases |t|
  {
    LeadingDigitsOfDigits(t);
    if |t| == 1 {
      assert t[..0] == [];
      assert DigitsValue(t) == DigitValue(t[0]);
      assert DigitChar(DigitValue(t[0])) == t[0];
      assert t == [t[0]];
    } else {
      var p := t[..|t| - 1];
      assert p[0] == t[0];
      NatToStringOfCanonical(p);
      LeadingDigitsOfDigits(p);
      var v := DigitsValue(p);
      assert NatToString(v)[0] == p[0] != '0';
      var c := DigitValue(t[|t| - 1]);
      assert DigitsValue(t) == v * 10 + c;
      assert (v * 10 + c) / 10 == v && (v * 10 + c) % 10 == c;
      assert DigitChar(c) == t[|t| - 1];
      assert t == p + [t[|t| - 1]];
    }
  }

  // ---------------------------------------------------------------------------
  // Fields, String#split('/') and Array#join('/')
  // ---------------------------------------------------------------------------

  /** Every '/'-separated field of `s`, empty ones included: "1//2/" has the
      fields "1", "", "2", "". */
  function Fields(s: string): (ts: seq<string>)
    ensures |ts| > 0
    ensures forall i :: 0 <= i < |ts| ==> NoDelimiter(ts[i])
    decreases |s|
  {
    if s == [] then [[]]
    else
      var rest := Fields(s[1..]);
      if s[0] == Delimiter then [[]] + rest else [[s[0]] + rest[0]] + rest[1..]
  }

  /** Ruby's split drops trailing empty fields (so "".split('/') == []). */
  function DropTrailingEmpty(ts: seq<string>): (r: seq<string>)
    ensures r <= ts
    ensures r == [] || r[|r| - 1] != []
    ensures forall i :: |r| <= i < |ts| ==> ts[i] == []
  {
    if ts != [] && ts[|ts| - 1] == [] then DropTrailingEmpty(ts[..|ts| - 1]) else ts
  }

  function Split(s: string): seq<string> {
    DropTrailingEmpty(Fields(s))
  }

  function Join(ts: seq<string>): string
    decreases |ts|
  {
    if ts == [] then []
    else if |ts| == 1 then ts[0]
    else ts[0] + [Delimiter] + Join(ts[1..])
  }

  predicate NoEmptyField(ts: seq<string>) {
    forall i :: 0 <= i < |ts| ==> ts[i] != []
  }

  /** A non-empty path with no empty field: no leading, trailing or doubled '/'. */
  predicate Delimited(s: string) {
    NoEmptyField(Fields(s))
  }

  /** `Ancestry::ANCESTRY_PATTERN`, which is defined outside this model, taken to be
      one or more runs of decimal digits separated by single '/' characters. */
  predicate MatchesPattern(s: string) {
    Delimited(s) && forall i :: 0 <= i < |s| ==> IsDigit(s[i]) || s[i] == Delimiter
  }

  lemma {:induction false} JoinFields(s: string)
    ensures Join(Fields(s)) == s
    decreases |s|
  {
    if s != [] {
      JoinFields(s[1..]);
      var rest := Fields(s[1..]);
      assert s == [s[0]] + s[1..];
      if s[0] == Delimiter {
        assert ([[]] + rest)[1..] == rest;
      } else if |rest| > 1 {
        assert ([[s[0]] + rest[0]] + rest[1..])[1..] == rest[1..];
      }
    }
  }

  /** One step of `Fields`: a leading '/' opens a new field, any other character
      joins the first field. */
  lemma FieldsCons(s: string)
    requires s != []
    ensures s[0] == Delimiter ==> Fields(s) == [[]] + Fields(s[1..])
    ensures s[0] != Delimiter ==> Fields(s) == [[s[0]] + Fields(s[1..])[0]] + Fields(s[1..])[1..]
  {
  }

  lemma FirstFieldGrows(c: char, fa: seq<string>, fb: seq<string>, rest: seq<string>)
    requires fa != [] && rest == fa + fb
    ensures [[c] + rest[0]] + rest[1..] == ([[c] + fa[0]] + fa[1..]) + fb
  {
    assert rest[1..] == fa[1..] + fb;
  }

  /** Splitting at a '/' splits the fields: the heart of every prefix argument. */
  lemma {:induction false} FieldsConcat(a: string, b: string)
    ensures Fields(a + [Delimiter] + b) == Fields(a) + Fields(b)
    decreases |a|
  {
    var s := a + [Delimiter] + b;
    if a == [] {
      assert s == [Delimiter] + b;
      FieldsCons(s);
      assert s[1..] == b;
    } else {
      FieldsConcat(a[1..], b);
      assert s[0] == a[0];
      assert s[1..] == a[1..] + [Delimiter] + b;
      FieldsCons(s);
      FieldsCons(a);
      if a[0] != Delimiter {
        FirstFieldGrows(a[0], Fields(a[1..]), Fields(b), Fields(s[1..]));
      }
    }
  }

  lemma {:induction false} FieldsOfField(t: string)
    requires NoDelimiter(t)
    ensures Fields(t) == [t]
    decreases |t|
  {
    if t != [] {
      FieldsOfField(t[1..]);
      assert t == [t[0]] + t[1..];
    }
  }

  lemma {:induction false} FieldsJoin(ts: seq<string>)
    requires ts != []
    requires forall i :: 0 <= i < |ts| ==> NoDelimiter(ts[i])
    ensures Fields(Join(ts)) == ts
    decreases |ts|
  {
    if |ts| == 1 {
      FieldsOfField(ts[0]);
    } else {
      FieldsJoin(ts[1..]);
      FieldsConcat(ts[0], Join(ts[1..]));
      FieldsOfField(ts[0]);
      assert ts == [ts[0]] + ts[1..];
    }
  }

  lemma {:induction false} JoinConcat(a: seq<string>, b: seq<string>)
    requires a != [] && b != []
    ensures Join(a + b) == Join(a) + [Delimiter] + Join(b)
    decreases |a|
  {
    if |a| == 1 {
      assert (a + b)[1..] == b;
    } else {
      JoinConcat(a[1..], b);
      assert (a + b)[1..] == a[1..] + b;
    }
  }

  /** On a path without empty fields Ruby's split keeps every field. */
  lemma SplitOfDelimited(s: string)
    requires Delimited(s)
    ensures Split(s) == Fields(s)
  {
  }

  // ---------------------------------------------------------------------------
  // Keys
  // ---------------------------------------------------------------------------

  /** `cast_primary_key`. */
  function CastKey(kind: KeyKind, field: string): (k: Key)
    ensures kind == TextKey ==> k == Text(field)
    ensures kind == NumericKey ==> k.Num? && (AllDigits(field) ==> k.n == DigitsValue(field))
  {
    if kind == TextKey then Text(field)
    else
      LeadingDigitsOfDigitsWhenAll(field);
      Num(ToI(field))
  }

  lemma LeadingDigitsOfDigitsWhenAll(s: string)
    ensures AllDigits(s) ==> LeadingDigits(s) == s
  {
    if AllDigits(s) { LeadingDigitsOfDigits(s); }
  }

  /** `to_s` of a key, as interpolated into a path. */
  function KeyString(k: Key): string {
    match k
    case Num(n) => NatToString(n)
    case Text(s) => s
  }

  /** A key of the table's key kind that can stand as one path field. */
  predicate ValidKey(kind: KeyKind, k: Key) {
    match kind
    case NumericKey => k.Num?
    case TextKey => k.Text? && k.s != [] && NoDelimiter(k.s)
  }

  function CastAll(kind: KeyKind, ts: seq<string>): (ks: seq<Key>)
    ensures |ks| == |ts|
  {
    seq(|ts|, i requires 0 <= i < |ts| => CastKey(kind, ts[i]))
  }

  lemma CastAllConcat(kind: KeyKind, a: seq<string>, b: seq<string>)
    ensures CastAll(kind, a + b) == CastAll(kind, a) + CastAll(kind, b)
  {
  }

  function KeyStrings(ks: seq<Key>): (ts: seq<string>)
    ensures |ts| == |ks|
  {
    seq(|ks|, i requires 0 <= i < |ks| => KeyString(ks[i]))
  }

  /** `nil.to_s` is the empty string. */
  function OrEmpty(v: Option<string>): string {
    if v.None? then [] else v.value
  }

  /** `parse_ancestry_column`: nil or "" decode to no ids. */
  function ParseAncestryColumn(kind: KeyKind, v: Option<string>): (ks: seq<Key>)
    ensures v.None? || v.value == [] ==> ks == []
    ensures v.Some? && Delimited(v.value) ==> ks == CastAll(kind, Fields(v.value))
  {
    CastAll(kind, Split(OrEmpty(v)))
  }

  /** Array#join('/') over ids. */
  function Encode(ks: seq<Key>): string {
    Join(KeyStrings(ks))
  }

  /** decode(encode(ids)) == ids for every list of keys of the table's kind. */
  lemma DecodeEncode(kind: KeyKind, ks: seq<Key>)
    requires forall i :: 0 <= i < |ks| ==> ValidKey(kind, ks[i])
    ensures ParseAncestryColumn(kind, Some(Encode(ks))) == ks
  {
    if ks != [] {
      var ts := KeyStrings(ks);
      forall i | 0 <= i < |ts| ensures NoDelimiter(ts[i]) && ts[i] != [] {
        if kind == NumericKey {
          var s := NatToString(ks[i].n);
          assert ts[i] == s;
          assert forall j :: 0 <= j < |s| ==> IsDigit(s[j]);
        }
      }
      FieldsJoin(ts);
      forall i | 0 <= i < |ks| ensures CastKey(kind, ts[i]) == ks[i] {
        if kind == NumericKey { ToIOfNatToString(ks[i].n); }
      }
    }
  }

  /** On text keys decoding and re-encoding a delimited path gives it back. */
  lemma EncodeDecodeText(s: string)
    requires Delimited(s)
    ensures Encode(ParseAncestryColumn(TextKey, Some(s))) == s
  {
    var f := Fields(s);
    JoinFields(s);
    assert KeyStrings(CastAll(TextKey, f)) == f;
  }

  lemma CanonicalFieldsRoundTrip(f: seq<string>)
    requires forall i :: 0 <= i < |f| ==> Canonical(f[i])
    ensures KeyStrings(CastAll(NumericKey, f)) == f
  {
    var g := KeyStrings(CastAll(NumericKey, f));
    forall i | 0 <= i < |f| ensures g[i] == f[i] {
      NatToStringOfCanonical(f[i]);
    }
  }

  lemma RoundTripFieldsCanonical(f: seq<string>)
    requires f != []
    requires Fields(Join(KeyStrings(CastAll(NumericKey, f)))) == f
    ensures forall i :: 0 <= i < |f| ==> Canonical(f[i])
  {
    var g := KeyStrings(CastAll(NumericKey, f));
    forall i | 0 <= i < |g| ensures NoDelimiter(g[i]) {
      var t := g[i];
      assert forall j :: 0 <= j < |t| ==> IsDigit(t[j]);
    }
    FieldsJoin(g);
    forall i | 0 <= i < |f| ensures Canonical(f[i]) {
      assert f[i] == g[i] == NatToString(ToI(f[i]));
    }
  }

  /** encode(decode(s)) == s holds for numeric keys exactly when no field of the
      delimited path carries a leading zero. */
  lemma EncodeDecodeNumeric(s: string)
    requires Delimited(s)
    ensures Encode(ParseAncestryColumn(NumericKey, Some(s))) == s <==>
            forall i :: 0 <= i < |Fields(s)| ==> Canonical(Fields(s)[i])
  {
    var f := Fields(s);
    JoinFields(s);
    if forall i :: 0 <= i < |f| ==> Canonical(f[i]) {
      CanonicalFieldsRoundTrip(f);
    }
    if Encode(ParseAncestryColumn(NumericKey, Some(s))) == s {
      RoundTripFieldsCanonical(f);
    }
  }

  /** A leading zero is lost: "01" decodes to [1], which encodes as "1". */
  lemma LeadingZeroLost()
    ensures ParseAncestryColumn(NumericKey, Some("01")) == [Num(1)]
    ensures Encode(ParseAncestryColumn(NumericKey, Some("01"))) == "1"
  {
    FieldsOfField("01");
    assert LeadingDigits("01") == "01";
    assert DigitsValue("01") == 1 by {
      assert "01"[..1] == "0";
      assert "0"[..0] == "";
    }
    assert NatToString(1) == "1";
  }

  /** The delimiter-aligned prefix test on strings is exactly "is a prefix of" on
      the fields: `p == c` or `p` starts with `c + "/"`. */
  lemma AlignedPrefixIsFieldPrefix(c: string, p: string)
    ensures (p == c || c + [Delimiter] <= p) <==> Fields(c) <= Fields(p)
  {
    if c + [Delimiter] <= p {
      AlignedPrefixGivesFieldPrefix(c, p);
    }
    if Fields(c) <= Fields(p) {
      FieldPrefixGivesAlignedPrefix(c, p);
    }
  }

  lemma AlignedPrefixGivesFieldPrefix(c: string, p: string)
    requires c + [Delimiter] <= p
    ensures Fields(c) <= Fields(p)
  {
    var t := p[|c| + 1..];
    assert p == c + [Delimiter] + t;
    FieldsConcat(c, t);
  }

  lemma FieldPrefixGivesAlignedPrefix(c: string, p: string)
    requires Fields(c) <= Fields(p)
    ensures p == c || c + [Delimiter] <= p
  {
    JoinFields(c);
    JoinFields(p);
    if |Fields(c)| < |Fields(p)| {
      var rest := Fields(p)[|Fields(c)|..];
      assert Fields(p) == Fields(c) + rest;
      JoinConcat(Fields(c), rest);
      assert p == c + [Delimiter] + Join(rest);
    } else {
      assert Fields(c) == Fields(p);
    }
  }
}
