/**
 What the parser makes of a request: its start line, and every header in its own field
 (src/sip/sm_sip.c:130-280).
 */
module SipRequest {
  import opened Bits
  import opened SipText
  import opened Sip

  /** A word of a request line. */
  predicate Word(w: string) {
    ' ' !in w && Plain(w)
  }

  lemma {:induction false} IndexOfWord(w: string, rest: string)
    requires ' ' !in w && (rest == "" || rest[0] == ' ')
    ensures IndexOf(w + rest, ' ') == |w|
  {
    if w == "" {
      assert w + rest == rest;
    } else {
      assert (w + rest)[1..] == w[1..] + rest;
      IndexOfWord(w[1..], rest);
    }
  }

  lemma {:induction false} NoStatusLine(w: string, rest: string)
    requires !("SIP/2.0" <= w) && rest != "" && rest[0] == ' '
    ensures !("SIP/2.0" <= w + rest)
  {
    if |w| < 7 {
      assert (w + rest)[|w|] == ' ';
    } else {
      assert (w + rest)[..7] == w[..7];
    }
  }

  lemma {:induction false} WordsOf(m: Msg, text: string, w: string, u: string, tail: string)
    requires Word(w) && Word(u) && !("SIP/2.0" <= w) && tail != "" && tail[0] == ' '
    requires CString(text[..Min(|text|, 511)]) == w + (" " + (u + tail))
    ensures FirstLine(m, text) == m.(method_ := w[..Min(|w|, 15)], uri := u[..Min(|u|, 255)])
  {
    var line := w + (" " + (u + tail));
    NoStatusLine(w, " " + (u + tail));
    IndexOfWord(w, " " + (u + tail));
    assert line[..Min(|w|, 15)] == w[..Min(|w|, 15)];
    assert line[|w| + 1..] == u + tail;
    IndexOfWord(u, tail);
    assert (u + tail)[..Min(|u|, 255)] == u[..Min(|u|, 255)];
  }

  /** The start line of a request. */
  function RequestLine(w: string, u: string): string {
    w + " " + u + " SIP/2.0"
  }

  lemma {:induction false} RequestLineRead(m: Msg, w: string, u: string)
    requires Word(w) && Word(u) && !("SIP/2.0" <= w) && |w| + |u| + 2 <= 511
    ensures FirstLine(m, RequestLine(w, u) + "\r") == m.(method_ := w[..Min(|w|, 15)], uri := u[..Min(|u|, 255)])
  {
    var text, tail := RequestLine(w, u) + "\r", " SIP/2.0\r";
    var head := w + " ";
    assert text == head + u + tail;
    CutLine(head, u, tail, 511);
    var cut := tail[..Min(|tail|, 511 - |head| - |u|)];
    assert head + (u + cut) == w + (" " + (u + cut));
    assert '\0' !in tail && '\0' !in text;
    NoNulCut(text, 511);
    WordsOf(m, text, w, u, cut);
  }

  lemma {:induction false} SepPastLine(t: string)
    ensures FindSep("\r\n" + t) >= 2
  {
    var s := "\r\n" + t;
    assert s[1..] == "\n" + t && ("\n" + t)[1..] == t;
  }

  /** The start line is the first line, whatever comes behind it. */
  lemma {:induction false} StartsWith(l: string, t: string)
    requires '\n' !in l
    ensures var buf := l + "\r\n" + t;
      var ps := Scan(buf, FindSep(buf), "");
      ps != [] && ps[0].line == l + "\r"
  {
    var buf := l + "\r\n" + t;
    SepInLine(l, t);
    SepPastLine(t);
    assert "" + l + "\r" == l + "\r";
    ScanLine(l, t, FindSep(buf), "");
  }

  /** What only the start line sets. */
  predicate SameStart(m: Msg, r: Msg) {
    r.method_ == m.method_ && r.uri == m.uri && r.isResponse == m.isResponse && r.status == m.status
  }

  lemma {:induction false} ValueKeepsStart(m: Msg, p: Piece, h: Header, k: nat)
    requires k <= |p.line|
    ensures SameStart(m, HandleValue(m, p, h, k))
  {
  }

  lemma {:induction false} LineKeepsStart(m: Msg, p: Piece)
    ensures SameStart(m, AfterLine(m, p))
  {
    var c := Classify(p.line);
    ValueKeepsStart(m, p, c.0, c.1);
  }

  lemma {:induction false} HeadersKeepStart(m: Msg, ps: seq<Piece>)
    ensures SameStart(m, Headers(m, ps))
    decreases |ps|
  {
    if ps != [] {
      LineKeepsStart(m, ps[0]);
      HeadersKeepStart(AfterLine(m, ps[0]), ps[1..]);
    }
  }

  /**
   A request: the first word of its start line is the method and the second the URI, cut to
   their fields, whatever headers and body follow.
   */
  lemma {:induction false} RequestStarts(w: string, u: string, rest: string)
    requires Word(w) && Word(u) && !("SIP/2.0" <= w) && |w| + |u| + 2 <= 511
    ensures var r := Parse(w + " " + u + " SIP/2.0\r\n" + rest);
      !r.isResponse && r.method_ == w[..Min(|w|, 15)] && r.uri == u[..Min(|u|, 255)]
  {
    var l := RequestLine(w, u);
    var buf := w + " " + u + " SIP/2.0\r\n" + rest;
    assert '\n' !in " SIP/2.0" && buf == l + "\r\n" + rest;
    StartsWith(l, rest);
    RequestLineRead(Cleared(), w, u);
    var ps := Scan(buf, FindSep(buf), "");
    HeadersKeepStart(FirstLine(Cleared(), ps[0].line), ps[1..]);
  }

  lemma {:induction false} ContactHeader(p: string)
    requires Has(p, "contact:")
    ensures Classify(p) == (Contact, 8)
  {
    assert Lower(p[0]) == 'c' && Lower(p[1]) == 'o';
    assert !Has(p, "via:") && !Has(p, "v:") && !Has(p, "from:") && !Has(p, "f:");
    assert !Has(p, "to:") && !Has(p, "t:") && !Has(p, "call-id:") && !Has(p, "i:") && !Has(p, "cseq:");
  }

  lemma {:induction false} ContactLine(m: Msg, v: string, ls: seq<string>, body: string)
    requires Plain(v) && |v| < 320
    ensures Lines(m, ["Contact: " + v] + ls, body) == Lines(m.(contact := Trim(v)), ls, body)
  {
    assert "Contact: " + v == "Contact:" + " " + v;
    var l := "Contact:" + " " + v + "\r";
    assert Has(l, "contact:");
    ContactHeader(l);
    ValuePrinted(v, 320);
    StepValue(m, "Contact:", v, ls, body, Contact);
  }

  lemma {:induction false} AgentHeader(p: string)
    requires Has(p, "user-agent:")
    ensures Classify(p) == (UserAgent, 11)
  {
    assert Lower(p[0]) == 'u';
    assert !Has(p, "via:") && !Has(p, "v:") && !Has(p, "from:") && !Has(p, "f:");
    assert !Has(p, "to:") && !Has(p, "t:") && !Has(p, "call-id:") && !Has(p, "i:") && !Has(p, "cseq:");
    assert !Has(p, "contact:") && !Has(p, "m:") && !Has(p, "content-type:");
  }

  lemma {:induction false} AgentLine(m: Msg, v: string, ls: seq<string>, body: string)
    requires Plain(v) && |v| < 128
    ensures Lines(m, ["User-Agent: " + v] + ls, body) == Lines(m.(userAgent := Trim(v)), ls, body)
  {
    assert "User-Agent: " + v == "User-Agent:" + " " + v;
    var l := "User-Agent:" + " " + v + "\r";
    assert Has(l, "user-agent:");
    AgentHeader(l);
    ValuePrinted(v, 128);
    StepValue(m, "User-Agent:", v, ls, body, UserAgent);
  }

  /** A value that parsing leaves as it is. */
  predicate Kept(v: string, cap: nat) {
    Field(v, cap) && Clean(v)
  }

  /** A header value of sequence number and method. */
  function CSeqText(n: nat, method_: string): string {
    Decimal(n) + " " + method_
  }

  lemma {:induction false} CSeqParts(m: Msg, n: nat, method_: string)
    ensures SetCSeq(m, CSeqText(n, method_))
         == m.(cseq := CSeqText(n, method_), cseqNum := n, cseqMethod := method_[..Min(|method_|, 15)])
  {
    var d, tail := Decimal(n), " " + method_;
    assert CSeqText(n, method_) == d + tail;
    assert ' ' !in d by { assert forall i :: 0 <= i < |d| ==> Digit(d[i]); }
    AtoiDecimal(n, tail);
    IndexOfWord(d, tail);
    assert (d + tail)[|d| + 1..] == method_;
  }

  /** The lines of a request that say who is calling. */
  function WhoLines(v1: string, v2: string, f: string, t: string, rest: seq<string>): seq<string> {
    ["Via: " + v1] + (["Via: " + v2] + (["From: " + f] + (["To: " + t] + rest)))
  }

  lemma {:induction false} WhoRead(m: Msg, v1: string, v2: string, f: string, t: string,
                                   rest: seq<string>, body: string)
    requires m.vias == [] && Kept(v1, 320) && Kept(v2, 320) && Kept(f, 320) && Kept(t, 320)
    ensures Lines(m, WhoLines(v1, v2, f, t, rest), body)
         == Lines(m.(vias := [v1, v2], from := f, fromTag := ExtractTag(f), to := t, toTag := ExtractTag(t)),
                  rest, body)
  {
    var l4 := ["To: " + t] + rest;
    var l3 := ["From: " + f] + l4;
    CleanIsTrimmed(v1);
    CleanIsTrimmed(v2);
    CleanIsTrimmed(f);
    CleanIsTrimmed(t);
    ViaLine(m, v1, ["Via: " + v2] + l3, body);
    var m1 := m.(vias := [v1]);
    assert m.vias + [v1] == [v1] && m1.vias + [v2] == [v1, v2];
    ViaLine(m1, v2, l3, body);
    var m2 := m.(vias := [v1, v2]);
    FromLine(m2, f, l4, body);
    ValuePrinted(t, 320);
    ToLine(m2.(from := f, fromTag := ExtractTag(f)), t, rest, body);
  }

  /** The lines that say what about. */
  function WhatLines(c: string, q: string, k: string, a: string, ct: string, rest: seq<string>): seq<string> {
    ["Call-ID: " + c]
    + (["CSeq: " + q] + (["Contact: " + k] + (["User-Agent: " + a] + (["Content-Type: " + ct] + rest))))
  }

  lemma {:induction false} WhatRead(m: Msg, c: string, q: string, k: string, a: string, ct: string,
                                    rest: seq<string>, body: string)
    requires Kept(c, 256) && Kept(q, 64) && Kept(k, 320) && Kept(a, 128) && Kept(ct, 64)
    ensures Lines(m, WhatLines(c, q, k, a, ct, rest), body)
         == Lines(SetCSeq(m.(callId := c), q).(contact := k, userAgent := a, contentType := ct), rest, body)
  {
    var l4 := ["Content-Type: " + ct] + rest;
    var l3 := ["User-Agent: " + a] + l4;
    var l2 := ["Contact: " + k] + l3;
    CleanIsTrimmed(c);
    CleanIsTrimmed(q);
    CleanIsTrimmed(k);
    CleanIsTrimmed(a);
    CleanIsTrimmed(ct);
    CallIdLine(m, c, ["CSeq: " + q] + l2, body);
    CSeqLine(m.(callId := c), q, l2, body);
    var m1 := SetCSeq(m.(callId := c), q);
    ContactLine(m1, k, l3, body);
    AgentLine(m1.(contact := k), a, l4, body);
    CTypeLine(m1.(contact := k, userAgent := a), ct, rest, body);
  }

  /** A whole request as a caller sends it. */
  function Request(w: string, u: string, v1: string, v2: string, f: string, t: string, c: string, q: string,
                   k: string, a: string, ct: string, body: string): string {
    Text([w + " " + u + " SIP/2.0"]
         + WhoLines(v1, v2, f, t, WhatLines(c, q, k, a, ct, ["Content-Length: " + Decimal(|body|)])), body)
  }

  lemma {:induction false} GoodWho(v1: string, v2: string, f: string, t: string, rest: seq<string>)
    requires Plain(v1) && Plain(v2) && Plain(f) && Plain(t) && GoodLines(rest)
    ensures GoodLines(WhoLines(v1, v2, f, t, rest))
  {
    assert GoodLine("Via: " + v1) && GoodLine("Via: " + v2) && GoodLine("From: " + f) && GoodLine("To: " + t);
  }

  lemma {:induction false} GoodWhat(c: string, q: string, k: string, a: string, ct: string, rest: seq<string>)
    requires Plain(c) && Plain(q) && Plain(k) && Plain(a) && Plain(ct) && GoodLines(rest)
    ensures GoodLines(WhatLines(c, q, k, a, ct, rest))
  {
    assert GoodLine("Call-ID: " + c) && GoodLine("CSeq: " + q) && GoodLine("Contact: " + k);
    assert GoodLine("User-Agent: " + a) && GoodLine("Content-Type: " + ct);
  }

  lemma {:induction false} GoodRequest(w: string, u: string)
    requires Word(w) && Word(u) && w != "" && w[0] != '\r'
    ensures GoodLine(RequestLine(w, u))
  {
    assert '\n' !in " SIP/2.0";
  }

  /** A request with all its headers is stored header by header, each in its own field. */
  lemma {:induction false} RequestReads(w: string, u: string, v1: string, v2: string, f: string, t: string,
                                        c: string, n: nat, method_: string, k: string, a: string, ct: string,
                                        body: string)
    requires Word(w) && Word(u) && !("SIP/2.0" <= w) && |w| + |u| + 2 <= 511 && w != "" && w[0] != '\r'
    requires Kept(v1, 320) && Kept(v2, 320) && Kept(f, 320) && Kept(t, 320)
    requires Kept(c, 256) && Kept(CSeqText(n, method_), 64) && Kept(k, 320) && Kept(a, 128) && Kept(ct, 64)
    requires |body| <= 4096
    ensures Parse(Request(w, u, v1, v2, f, t, c, CSeqText(n, method_), k, a, ct, body))
         == Msg(false, 0, w[..Min(|w|, 15)], u[..Min(|u|, 255)], [v1, v2], f, t, c,
                CSeqText(n, method_), n, method_[..Min(|method_|, 15)], k, ct, a,
                |body|, body, ExtractTag(f), ExtractTag(t))
  {
    var q := CSeqText(n, method_);
    var what := WhatLines(c, q, k, a, ct, [LengthLine(body)]);
    var ls := WhoLines(v1, v2, f, t, what);
    DecimalPlain(|body|);
    assert GoodLine(LengthLine(body));
    GoodWhat(c, q, k, a, ct, [LengthLine(body)]);
    GoodWho(v1, v2, f, t, what);
    GoodRequest(w, u);
    PrintedParts(RequestLine(w, u), ls, body);
    RequestLineRead(Cleared(), w, u);
    var m0 := Cleared().(method_ := w[..Min(|w|, 15)], uri := u[..Min(|u|, 255)]);
    WhoRead(m0, v1, v2, f, t, what, body);
    var m1 := m0.(vias := [v1, v2], from := f, fromTag := ExtractTag(f), to := t, toTag := ExtractTag(t));
    WhatRead(m1, c, q, k, a, ct, [LengthLine(body)], body);
    CSeqParts(m1.(callId := c), n, method_);
    var m2 := SetCSeq(m1.(callId := c), q).(contact := k, userAgent := a, contentType := ct);
    LengthLineRead(m2, body);
    assert body[..|body|] == body;
  }

  // -------------------------------------------------- other ways to write it

  /** The short forms of the header names. */
  lemma {:induction false} CompactForms(rest: string)
    ensures Classify("v:" + rest) == (Via, 2) && Classify("f:" + rest) == (From, 2)
    ensures Classify("t:" + rest) == (To, 2) && Classify("i:" + rest) == (CallId, 2)
    ensures Classify("m:" + rest) == (Contact, 2)
  {
    CompactForm("v:" + rest);
    CompactForm("f:" + rest);
    CompactForm("t:" + rest);
    CompactForm("i:" + rest);
    CompactForm("m:" + rest);
  }

  lemma {:induction false} CompactForm(p: string)
    requires |p| >= 2 && p[1] == ':'
    ensures Classify(p) == (match p[0]
                            case 'v' => (Via, 2) case 'f' => (From, 2) case 't' => (To, 2)
                            case 'i' => (CallId, 2) case 'm' => (Contact, 2) case _ => Classify(p))
  {
    assert Lower(p[1]) == ':';
    assert !Has(p, "via:") && !Has(p, "from:") && !Has(p, "to:") && !Has(p, "call-id:");
    assert !Has(p, "cseq:") && !Has(p, "contact:");
  }

  /** The same letter, in either case. */
  predicate SameLetter(c: char, d: char) {
    c == d || ('A' <= c <= 'Z' && d as int == c as int + 32) || ('A' <= d <= 'Z' && c as int == d as int + 32)
  }

  lemma {:induction false} CaseOfName(p: string, q: string, name: string)
    requires |p| == |q| && forall i :: 0 <= i < |p| ==> SameLetter(p[i], q[i])
    ensures Has(p, name) <==> Has(q, name)
  {
    assert forall i :: 0 <= i < |p| ==> Lower(p[i]) == Lower(q[i]);
  }

  /** Header names are read in upper and lower case alike. */
  lemma {:induction false} CaseDoesNotMatter(p: string, q: string)
    requires |p| == |q| && forall i :: 0 <= i < |p| ==> SameLetter(p[i], q[i])
    ensures Classify(p) == Classify(q)
  {
    CaseOfName(p, q, "via:");
    CaseOfName(p, q, "v:");
    CaseOfName(p, q, "from:");
    CaseOfName(p, q, "f:");
    CaseOfName(p, q, "to:");
    CaseOfName(p, q, "t:");
    CaseOfName(p, q, "call-id:");
    CaseOfName(p, q, "i:");
    CaseOfName(p, q, "cseq:");
    CaseOfName(p, q, "contact:");
    CaseOfName(p, q, "m:");
    CaseOfName(p, q, "content-type:");
    CaseOfName(p, q, "user-agent:");
    CaseOfName(p, q, "content-length:");
  }

  /** A message with a length for its body, which may be longer or shorter. */
  function WithLength(n: nat, body: string): string {
    Text(["X"] + ["Content-Length: " + Decimal(n)], body)
  }

  /** Of a body only as much is kept as the length says, when it says less, and 4096 at most. */
  lemma {:induction false} ContentLengthRules(n: nat, body: string)
    ensures var r := Parse(WithLength(n, body));
      r.contentLength == n && r.body == body[..Min(if 0 < n < |body| then n else |body|, 4096)]
  {
    var l := LengthLine(Letters(n));
    assert l == "Content-Length: " + Decimal(n);
    DecimalPlain(n);
    assert GoodLine(l) && GoodLine("X");
    var m := FirstLine(Cleared(), "X" + "\r");
    PrintedParts("X", [l], body);
    assert [l] + [] == [l];
    Step(m, l, [], body);
    HandleLength(m, Letters(n), "\n" + Text([], body));
    LinesDone(m.(contentLength := n), body);
    BodyKept(m.(contentLength := n), n, body);
  }

  lemma {:induction false} BodyKept(m: Msg, n: nat, body: string)
    requires m.contentLength == n && m.body == ""
    ensures var r := WithBody(m, body);
      r.contentLength == n && r.body == body[..Min(if 0 < n < |body| then n else |body|, 4096)]
  {
  }
}
