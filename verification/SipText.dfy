/**
 The text primitives of the SIP parser and printer (src/sip/sm_sip.c): C strings, line
 values, decimal numbers and tags.
 */
module SipText {
  import opened Bits

  predicate Blank(c: char) {
    c == ' ' || c == '\t'
  }

  /** The part of a buffer a C string function sees. */
  function CString(s: string): string {
    if s == "" || s[0] == '\0' then "" else [s[0]] + CString(s[1..])
  }

  // ------------------------------------------------------ line values

  function TrimRight(s: string): string {
    if s != "" && (Blank(s[|s| - 1]) || s[|s| - 1] == '\r') then TrimRight(s[..|s| - 1]) else s
  }

  function TrimLeft(s: string): string {
    if s != "" && Blank(s[0]) then TrimLeft(s[1..]) else s
  }

  function Trim(s: string): string {
    TrimLeft(TrimRight(s))
  }

  /** copy_line_value into a field of `cap` bytes, read back as a C string. */
  function Value(s: string, cap: nat): string
    requires cap > 0
  {
    var t := Trim(s);
    CString(t[..Min(|t|, cap - 1)])
  }

  /** Fit to stand in a header: no line end, no NUL. */
  predicate Plain(s: string) {
    '\n' !in s && '\0' !in s
  }

  lemma {:induction false} CStringPlain(s: string)
    requires '\0' !in s
    ensures CString(s) == s
  {
    if s != "" {
      assert s == [s[0]] + s[1..];
      CStringPlain(s[1..]);
    }
  }

  lemma {:induction false} CStringIsPlain(s: string)
    ensures '\0' !in CString(s) && ('\n' !in s ==> '\n' !in CString(s))
    ensures CString(s) <= s
  {
    if s != "" && s[0] != '\0' {
      CStringIsPlain(s[1..]);
      assert s == [s[0]] + s[1..];
    }
  }

  lemma {:induction false} TrimRightShrinks(s: string)
    ensures TrimRight(s) <= s
  {
    if s != "" && (Blank(s[|s| - 1]) || s[|s| - 1] == '\r') { TrimRightShrinks(s[..|s| - 1]); }
  }

  lemma {:induction false} TrimLeftShrinks(s: string)
    ensures |TrimLeft(s)| <= |s| && TrimLeft(s) == s[|s| - |TrimLeft(s)|..]
  {
    if s != "" && Blank(s[0]) {
      TrimLeftShrinks(s[1..]);
    }
  }

  lemma {:induction false} TrimKeepsPlain(s: string)
    ensures |Trim(s)| <= |s| && (Plain(s) ==> Plain(Trim(s)))
    ensures '\n' !in s ==> '\n' !in Trim(s)
  {
    TrimRightShrinks(s);
    TrimLeftShrinks(TrimRight(s));
  }

  /** A value printed after one space and before CR LF reads back trimmed. */
  lemma {:induction false} TrimPrinted(v: string)
    ensures Trim([' '] + v + ['\r']) == Trim(v)
  {
    var s := [' '] + v + ['\r'];
    assert s[..|s| - 1] == [' '] + v;
    TrimRightSpace(v);
    if TrimRight(v) != "" {
      assert ([' '] + TrimRight(v))[1..] == TrimRight(v);
    }
  }

  lemma {:induction false} TrimRightSpace(v: string)
    ensures TrimRight([' '] + v) == if TrimRight(v) == "" then "" else [' '] + TrimRight(v)
  {
    var s := [' '] + v;
    if v == "" {
      assert s[..0] == "";
    } else {
      assert s[|s| - 1] == v[|v| - 1] && s[..|s| - 1] == [' '] + v[..|v| - 1];
      if Blank(v[|v| - 1]) || v[|v| - 1] == '\r' { TrimRightSpace(v[..|v| - 1]); }
    }
  }

  lemma {:induction false} ValuePrinted(v: string, cap: nat)
    requires Plain(v) && |v| < cap
    ensures Value([' '] + v + ['\r'], cap) == Trim(v)
  {
    TrimPrinted(v);
    TrimKeepsPlain(v);
    CStringPlain(Trim(v));
    assert Trim(v)[..|Trim(v)|] == Trim(v);
  }

  /** A value that was not cut is already trimmed: printing and parsing it changes nothing. */
  lemma {:induction false} ValueIsTrimmed(s: string, cap: nat)
    requires cap > 0 && '\0' !in s && |Trim(s)| < cap
    ensures Value(s, cap) == Trim(s) && Trim(Value(s, cap)) == Value(s, cap)
  {
    TrimRightShrinks(s);
    TrimLeftShrinks(TrimRight(s));
    CStringPlain(Trim(s));
    assert Trim(s)[..|Trim(s)|] == Trim(s);
    TrimTwice(s);
  }

  lemma {:induction false} TrimTwice(s: string)
    ensures Trim(Trim(s)) == Trim(s)
  {
    TrimRightFixed(s);
    var t := TrimRight(s);
    TrimLeftFixed(t);
    TrimLeftShrinks(t);
    var u := TrimLeft(t);
    if u != "" { assert u[|u| - 1] == t[|t| - 1]; }
    assert TrimRight(u) == u;
  }

  lemma {:induction false} TrimRightFixed(s: string)
    ensures var t := TrimRight(s); t != "" ==> !Blank(t[|t| - 1]) && t[|t| - 1] != '\r'
  {
    if s != "" && (Blank(s[|s| - 1]) || s[|s| - 1] == '\r') { TrimRightFixed(s[..|s| - 1]); }
  }

  lemma {:induction false} TrimLeftFixed(s: string)
    ensures var t := TrimLeft(s); t != "" ==> !Blank(t[0])
  {
    if s != "" && Blank(s[0]) { TrimLeftFixed(s[1..]); }
  }

  /** Every field value is plain and shorter than its field. */
  lemma {:induction false} ValueFits(s: string, cap: nat)
    requires cap > 0
    ensures |Value(s, cap)| < cap && ('\n' !in s ==> Plain(Value(s, cap)))
  {
    TrimKeepsPlain(s);
    var t := Trim(s);
    CStringIsPlain(t[..Min(|t|, cap - 1)]);
  }

  /** Does not end in a blank or a carriage return. */
  predicate Clean(s: string) {
    s == "" || (!Blank(s[|s| - 1]) && s[|s| - 1] != '\r')
  }

  /** A text that starts with no blank is its own trimming exactly when it ends clean. */
  lemma {:induction false} CleanIsTrimmed(s: string)
    requires s != "" ==> !Blank(s[0])
    ensures Trim(s) == s <==> Clean(s)
  {
    if Clean(s) {
      assert TrimRight(s) == s;
    } else {
      TrimRightShrinks(s[..|s| - 1]);
      TrimLeftShrinks(TrimRight(s));
    }
  }

  // ------------------------------------------------------- decimal numbers

  predicate Digit(c: char) {
    '0' <= c <= '9'
  }

  function DigitOf(d: nat): char
    requires d < 10
  {
    ('0' as int + d) as char
  }

  /** %d of a non-negative number. */
  function Decimal(n: nat): (s: string)
    ensures |s| > 0 && forall i :: 0 <= i < |s| ==> Digit(s[i])
  {
    if n < 10 then [DigitOf(n)] else Decimal(n / 10) + [DigitOf(n % 10)]
  }

  /** Leading digits as a number. */
  function Digits(s: string, sofar: nat): nat
    decreases |s|
  {
    if s == "" || !Digit(s[0]) then sofar else Digits(s[1..], 10 * sofar + (s[0] as int - '0' as int))
  }

  predicate Space(c: char) {
    c == ' ' || c == '\t' || c == '\n' || c == '\r' || c == '\U{0B}' || c == '\U{0C}'
  }

  /** atoi */
  function Atoi(s: string): int {
    if s == "" then 0
    else if Space(s[0]) then Atoi(s[1..])
    else if s[0] == '-' then 0 - Digits(s[1..], 0)
    else if s[0] == '+' then Digits(s[1..], 0)
    else Digits(s, 0)
  }

  lemma {:induction false} DigitsOfDecimal(n: nat, rest: string)
    requires rest == "" || !Digit(rest[0])
    ensures Digits(Decimal(n) + rest, 0) == n
  {
    DigitsAcross(Decimal(n), rest, 0);
    if n < 10 {
      assert Digits(Decimal(n), 0) == n by { assert Decimal(n)[1..] == ""; }
    } else {
      DigitsOfDecimal(n / 10, "");
      assert Decimal(n / 10) + "" == Decimal(n / 10);
      DigitsAcross(Decimal(n / 10), [DigitOf(n % 10)], 0);
      assert [DigitOf(n % 10)][1..] == "";
    }
  }

  /** Digits go on with what stands behind a run of digits. */
  lemma {:induction false} DigitsAcross(x: string, rest: string, sofar: nat)
    requires forall i :: 0 <= i < |x| ==> Digit(x[i])
    ensures Digits(x + rest, sofar) == Digits(rest, Digits(x, sofar))
    decreases |x|
  {
    if x == "" {
      assert x + rest == rest;
    } else {
      assert (x + rest)[1..] == x[1..] + rest;
      DigitsAcross(x[1..], rest, 10 * sofar + (x[0] as int - '0' as int));
    }
  }

  lemma {:induction false} AtoiDecimal(n: nat, rest: string)
    requires rest == "" || !Digit(rest[0])
    ensures Atoi(Decimal(n) + rest) == n && Atoi([' '] + Decimal(n) + rest) == n
  {
    var s := Decimal(n) + rest;
    assert s[0] == Decimal(n)[0];
    DigitsOfDecimal(n, rest);
    assert [' '] + Decimal(n) + rest == [' '] + s;
    assert ([' '] + s)[1..] == s;
  }

  // ------------------------------------------------------------------ tags

  /** strstr(s, "tag="): where it begins, or |s|. */
  function FindTag(s: string): (i: nat)
    ensures i <= |s|
    ensures i < |s| ==> i + 4 <= |s|
  {
    if s == "" || "tag=" <= s then 0 else 1 + FindTag(s[1..])
  }

  predicate TagEnd(c: char) {
    c == ';' || c == ' ' || c == '\r' || c == '\n' || c == '\0'
  }

  function UntilTagEnd(s: string, room: nat): string {
    if s == "" || TagEnd(s[0]) || room == 0 then "" else [s[0]] + UntilTagEnd(s[1..], room - 1)
  }

  /** extract_tag into a field of 64 bytes. */
  function ExtractTag(s: string): string {
    var i := FindTag(s);
    if i == |s| then "" else UntilTagEnd(s[i + 4..], 63)
  }

  // --------------------------------------------------- what is kept of a text

  predicate AllBlank(s: string) {
    forall i :: 0 <= i < |s| ==> s[i] == ' ' || s[i] == '\t'
  }

  /** Blanks and carriage returns. */
  predicate AllTrailing(s: string) {
    forall i :: 0 <= i < |s| ==> s[i] == ' ' || s[i] == '\t' || s[i] == '\r'
  }

  lemma {:induction false} TrimRightStrips(s: string, trail: string)
    requires AllTrailing(trail)
    ensures TrimRight(s + trail) == TrimRight(s)
    decreases |trail|
  {
    if trail == "" {
      assert s + trail == s;
    } else {
      var n := |trail| - 1;
      assert (s + trail)[..|s| + n] == s + trail[..n];
      TrimRightStrips(s, trail[..n]);
    }
  }

  lemma {:induction false} TrimLeftStrips(lead: string, s: string)
    requires AllBlank(lead) && s != "" && s[0] != ' ' && s[0] != '\t'
    ensures TrimLeft(lead + s) == s
  {
    if lead == "" {
      assert lead + s == s;
    } else {
      assert (lead + s)[1..] == lead[1..] + s;
      TrimLeftStrips(lead[1..], s);
    }
  }

  /** A header value is stored without the blanks around it, as far as it fits its field. */
  lemma {:induction false} ValueStrips(lead: string, v: string, trail: string, cap: nat)
    requires AllBlank(lead) && AllTrailing(trail) && '\0' !in v && cap > 0
    requires v != "" && v[0] !in {' ', '\t'} && v[|v| - 1] !in {' ', '\t', '\r'}
    ensures Value(lead + v + trail, cap) == v[..Min(|v|, cap - 1)]
  {
    TrimRightStrips(lead + v, trail);
    assert (lead + v)[|lead + v| - 1] == v[|v| - 1];
    TrimLeftStrips(lead, v);
    CStringPlain(v[..Min(|v|, cap - 1)]);
  }

  lemma {:induction false} UntilTagEndStops(tag: string, rest: string, room: nat)
    requires |tag| <= room && forall i :: 0 <= i < |tag| ==> tag[i] !in {';', ' ', '\r', '\n', '\0'}
    requires rest == "" || rest[0] in {';', ' ', '\r', '\n'}
    ensures UntilTagEnd(tag + rest, room) == tag
  {
    if tag == "" {
      assert tag + rest == rest;
    } else {
      assert (tag + rest)[1..] == tag[1..] + rest;
      UntilTagEndStops(tag[1..], rest, room - 1);
      assert tag == [tag[0]] + tag[1..];
    }
  }

  /** The tag of a header is what stands behind its first "tag=", up to a delimiter. */
  lemma {:induction false} ExtractTagIs(a: string, tag: string, rest: string)
    requires FindTag(a + "tag=" + tag + rest) == |a|
    requires |tag| <= 63 && forall i :: 0 <= i < |tag| ==> tag[i] !in {';', ' ', '\r', '\n', '\0'}
    requires rest == "" || rest[0] in {';', ' ', '\r', '\n'}
    ensures ExtractTag(a + "tag=" + tag + rest) == tag
  {
    var s := a + "tag=" + tag + rest;
    assert s[|a| + 4..] == tag + rest;
    UntilTagEndStops(tag, rest, 63);
  }
}
