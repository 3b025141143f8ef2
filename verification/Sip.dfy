/**
 The SIP parser and the response printer (src/sip/sm_sip.c:60-280 and 377-415), and what
 parsing a printed response gives back.
 */
module Sip {
  import opened Bits
  import opened SipText

  datatype Msg = Msg(
    isResponse: bool, status: int, method_: string, uri: string,
    vias: seq<string>, from: string, to: string, callId: string,
    cseq: string, cseqNum: int, cseqMethod: string,
    contact: string, contentType: string, userAgent: string,
    contentLength: int, body: string, fromTag: string, toTag: string)

  const MAX_VIAS := 4
  const MAX_MSG := 4096

  function Cleared(): Msg {
    Msg(false, 0, "", "", [], "", "", "", "", 0, "", "", "", "", 0, "", "", "")
  }

  // -------------------------------------------------------------- parsing

  /** Where the body begins: after the first blank line, or at the end. */
  function FindSep(s: string): (k: nat)
    ensures k <= |s|
  {
    if |s| < 2 then |s|
    else if "\r\n\r\n" <= s then 4
    else if "\n\n" <= s then 2
    else 1 + FindSep(s[1..])
  }

  /** strchr and find_eol: the first c, or the end. */
  function IndexOf(s: string, c: char): (i: nat)
    ensures i <= |s|
  {
    if s == "" || s[0] == c then 0 else 1 + IndexOf(s[1..], c)
  }

  lemma {:induction false} IndexOfIsFirst(s: string, c: char)
    ensures var i := IndexOf(s, c); c !in s[..i] && (i < |s| ==> s[i] == c)
  {
    if s != "" && s[0] != c {
      IndexOfIsFirst(s[1..], c);
      var i := IndexOf(s[1..], c);
      assert s[..1 + i] == [s[0]] + s[1..][..i];
    }
  }

  function FirstLine(m: Msg, text: string): Msg {
    var line := CString(text[..Min(|text|, 511)]);
    if "SIP/2.0" <= line then
      m.(isResponse := true, status := Atoi(if |line| > 8 then line[8..] else ""))
    else
      var sp := IndexOf(line, ' ');
      if sp == |line| then m
      else
        var rest := line[sp + 1..];
        m.(method_ := line[..Min(sp, 15)], uri := rest[..Min(IndexOf(rest, ' '), 255)])
  }

  function Lower(c: char): char {
    if 'A' <= c <= 'Z' then (c as int + 32) as char else c
  }

  /** strncasecmp of a line against a lower-case name */
  predicate Has(line: string, name: string) {
    |name| <= |line| && forall i :: 0 <= i < |name| ==> Lower(line[i]) == name[i]
  }

  datatype Header = Via | From | To | CallId | CSeq | Contact | ContentType | UserAgent | ContentLength | Other

  /** Which header a line holds, and where its value starts. */
  function Classify(line: string): (r: (Header, nat))
    ensures r.1 <= |line|
  {
    if Has(line, "via:") then (Via, 4) else if Has(line, "v:") then (Via, 2)
    else if Has(line, "from:") then (From, 5) else if Has(line, "f:") then (From, 2)
    else if Has(line, "to:") then (To, 3) else if Has(line, "t:") then (To, 2)
    else if Has(line, "call-id:") then (CallId, 8) else if Has(line, "i:") then (CallId, 2)
    else if Has(line, "cseq:") then (CSeq, 5)
    else if Has(line, "contact:") then (Contact, 8) else if Has(line, "m:") then (Contact, 2)
    else if Has(line, "content-type:") then (ContentType, 13)
    else if Has(line, "user-agent:") then (UserAgent, 11)
    else if Has(line, "content-length:") then (ContentLength, 15)
    else (Other, 0)
  }

  function SetCSeq(m: Msg, v: string): Msg {
    var sp := IndexOf(v, ' ');
    m.(cseq := v, cseqNum := Atoi(v),
       cseqMethod := if sp < |v| then v[sp + 1..][..Min(|v| - sp - 1, 15)] else m.cseqMethod)
  }

  /** One header value stored; a fifth Via is dropped. */
  function Store(m: Msg, h: Header, v: string): Msg {
    match h
    case Via => if |m.vias| < MAX_VIAS then m.(vias := m.vias + [Value(v, 320)]) else m
    case From => m.(from := Value(v, 320), fromTag := ExtractTag(Value(v, 320)))
    case To => m.(to := Value(v, 320), toTag := ExtractTag(Value(v, 320)))
    case CallId => m.(callId := Value(v, 256))
    case CSeq => SetCSeq(m, Value(v, 64))
    case Contact => m.(contact := Value(v, 320))
    case ContentType => m.(contentType := Value(v, 64))
    case UserAgent => m.(userAgent := Value(v, 128))
    case _ => m
  }

  /** A header line, and the text from its end on: a length is read without regard to that end. */
  datatype Piece = Piece(line: string, after: string)

  /** The text k characters on. */
  function Skip(s: string, k: nat): (r: string)
    requires k <= |s|
    ensures |r| == |s| - k
  {
    if k == 0 then s else Skip(s[1..], k - 1)
  }

  lemma {:induction false} SkipIs(s: string, k: nat)
    requires k <= |s|
    ensures Skip(s, k) == s[k..]
  {
    if k > 0 { SkipIs(s[1..], k - 1); }
  }

  /** The value from the k-th character of the line on, for header h. */
  function HandleValue(m: Msg, p: Piece, h: Header, k: nat): Msg
    requires k <= |p.line|
  {
    var v := Skip(p.line, k);
    if h.ContentLength? then m.(contentLength := Atoi(v + p.after)) else Store(m, h, v)
  }

  function HandleLine(m: Msg, p: Piece): Msg {
    var c := Classify(p.line);
    HandleValue(m, p, c.0, c.1)
  }

  /** One line of the header; blank ones are passed over. */
  function AfterLine(m: Msg, p: Piece): Msg {
    if p.line == "" || p.line == "\r" then m else HandleLine(m, p)
  }

  /** The lines in the first n characters of s, the first of which has begun with `line`. */
  function Scan(s: string, n: nat, line: string): seq<Piece>
    requires n <= |s|
    decreases n
  {
    if n == 0 then (if line == "" then [] else [Piece(line, s)])
    else if s[0] == '\n' then [Piece(line, s)] + Scan(s[1..], n - 1, "")
    else Scan(s[1..], n - 1, line + [s[0]])
  }

  function Headers(m: Msg, ps: seq<Piece>): Msg
    decreases |ps|
  {
    if ps == [] then m else Headers(AfterLine(m, ps[0]), ps[1..])
  }

  function WithBody(m: Msg, s: string): Msg {
    var k := if 0 < m.contentLength < |s| then m.contentLength else |s|;
    if s == "" then m else m.(body := s[..Min(k, MAX_MSG)])
  }

  /** A message of these lines, the first of which is the start line, and this body. */
  function ParseLines(ps: seq<Piece>, body: string): Msg {
    WithBody(if ps == [] then FirstLine(Cleared(), "") else Headers(FirstLine(Cleared(), ps[0].line), ps[1..]), body)
  }

  /** parse_sip */
  function Parse(buf: string): Msg {
    var body := FindSep(buf);
    ParseLines(Scan(buf, body, ""), buf[body..])
  }

  // ------------------------------------------------------------- printing

  function StatusLine(status: nat, reason: string): string {
    "SIP/2.0 " + Decimal(status) + " " + reason
  }

  function ViaLines(vias: seq<string>): seq<string> {
    if vias == [] then [] else ["Via: " + vias[0]] + ViaLines(vias[1..])
  }

  /** A To tag is added exactly when the request's To has none. */
  function ToPrinted(m: Msg, tag: string): string {
    if m.toTag != "" then m.to else m.to + ";tag=" + tag
  }

  function Join(ls: seq<string>): string {
    if ls == [] then "" else ls[0] + "\r\n" + Join(ls[1..])
  }

  function Text(ls: seq<string>, body: string): string {
    Join(ls) + "\r\n" + body
  }

  function CTypeLines(body: string): seq<string> {
    if body != "" then ["Content-Type: application/sdp"] else []
  }

  function LengthLine(body: string): string {
    "Content-Length: " + Decimal(|body|)
  }

  /** The lines from the extra headers on. */
  function TailLines(extra: seq<string>, body: string): seq<string> {
    extra + (["Server: SoftmodemSIP/1.0"] + (CTypeLines(body) + [LengthLine(body)]))
  }

  function HeaderLines(m: Msg, extra: seq<string>, body: string, tag: string): seq<string> {
    ViaLines(m.vias)
    + (["From: " + m.from]
       + (["To: " + ToPrinted(m, tag)]
          + (["Call-ID: " + m.callId]
             + (["CSeq: " + m.cseq] + TailLines(extra, body)))))
  }

  /** build_response, for extra headers given as whole lines */
  function Response(m: Msg, status: nat, reason: string, extra: seq<string>, body: string, tag: string): string {
    Text([StatusLine(status, reason)] + HeaderLines(m, extra, body, tag), body)
  }

  // ------------------------------------------------- finding the body again

  /** A line that cannot be mistaken for the end of the header. */
  predicate GoodLine(l: string) {
    l != "" && l[0] != '\r' && '\n' !in l
  }

  predicate GoodLines(ls: seq<string>) {
    forall i :: 0 <= i < |ls| ==> GoodLine(ls[i])
  }

  lemma {:induction false} SepInLine(l: string, t: string)
    requires '\n' !in l
    ensures FindSep(l + "\r\n" + t) == |l| + FindSep("\r\n" + t)
  {
    var s := l + "\r\n" + t;
    if l == "" {
      assert s == "\r\n" + t;
    } else {
      assert s[1..] == l[1..] + "\r\n" + t;
      assert s[0] == l[0] != '\n';
      if |l| == 1 { assert s[1] == '\r'; } else { assert s[1] == l[1] != '\n'; }
      SepInLine(l[1..], t);
    }
  }

  lemma {:induction false} SepBetween(t: string)
    requires |t| >= 2 && t[0] != '\r' && t[0] != '\n'
    ensures FindSep("\r\n" + t) == 2 + FindSep(t)
  {
    var s := "\r\n" + t;
    assert s[2] == t[0];
    assert s[1..] == "\n" + t && ("\n" + t)[1] == t[0];
    assert ("\n" + t)[1..] == t;
  }

  /** The body of a printed message begins where the printer put it. */
  lemma {:induction false} SepAfterLines(ls: seq<string>, body: string)
    requires ls != [] && GoodLines(ls)
    ensures FindSep(Text(ls, body)) == |Join(ls)| + 2
  {
    var s := Join(ls) + "\r\n" + body;
    var t := Join(ls[1..]) + "\r\n" + body;
    assert s == ls[0] + "\r\n" + t;
    SepInLine(ls[0], t);
    if |ls| == 1 {
      assert Join(ls[1..]) == "";
      assert "\r\n" + t == "\r\n\r\n" + body;
    } else {
      assert t[0] == ls[1][0];
      SepBetween(t);
      SepAfterLines(ls[1..], body);
    }
  }

  // ------------------------------------------------- the header lines again

  function Printed(l: string, ls: seq<string>, body: string): Piece {
    Piece(l + "\r", "\n" + Text(ls, body))
  }

  /** The printed lines ls and the blank line, with what follows each. */
  function Pieces(ls: seq<string>, body: string): seq<Piece> {
    if ls == [] then [Piece("\r", "\n" + body)]
    else [Printed(ls[0], ls[1..], body)] + Pieces(ls[1..], body)
  }

  /** Parsing the printed lines ls. */
  function Lines(m: Msg, ls: seq<string>, body: string): Msg {
    Headers(m, Pieces(ls, body))
  }

  lemma {:induction false} ScanLine(l: string, t: string, n: nat, line: string)
    requires '\n' !in l && |l| + 2 <= n <= |l| + 2 + |t|
    ensures Scan(l + "\r\n" + t, n, line) == [Piece(line + l + "\r", "\n" + t)] + Scan(t, n - |l| - 2, "")
  {
    if l == "" {
      ScanEnd(t, n, line);
      assert "" + "\r\n" + t == "\r\n" + t && line + "" + "\r" == line + "\r";
    } else {
      assert (l + "\r\n" + t)[1..] == l[1..] + "\r\n" + t;
      assert line + [l[0]] + l[1..] + "\r" == line + l + "\r";
      ScanLine(l[1..], t, n - 1, line + [l[0]]);
    }
  }

  lemma {:induction false} ScanEnd(t: string, n: nat, line: string)
    requires 2 <= n <= 2 + |t|
    ensures Scan("\r\n" + t, n, line) == [Piece(line + "\r", "\n" + t)] + Scan(t, n - 2, "")
  {
    assert ("\r\n" + t)[1..] == "\n" + t && ("\n" + t)[1..] == t;
  }

  /** The parser splits the printed header into the printed lines. */
  lemma {:induction false} ScanPrinted(ls: seq<string>, body: string)
    requires GoodLines(ls)
    ensures Scan(Text(ls, body), |Join(ls)| + 2, "") == Pieces(ls, body)
  {
    if ls == [] {
      assert Text(ls, body) == "\r\n" + body && "" + "\r" == "\r";
      ScanEnd(body, 2, "");
    } else {
      TextSplit(ls, body);
      assert "" + ls[0] + "\r" == ls[0] + "\r";
      ScanLine(ls[0], Text(ls[1..], body), |Join(ls)| + 2, "");
      ScanPrinted(ls[1..], body);
    }
  }

  lemma {:induction false} TextSplit(ls: seq<string>, body: string)
    requires ls != []
    ensures Text(ls, body) == ls[0] + "\r\n" + Text(ls[1..], body)
    ensures |Join(ls)| == |ls[0]| + 2 + |Join(ls[1..])|
  {
  }

  lemma {:induction false} PiecesCons(l: string, ls: seq<string>, body: string)
    ensures var ps := Pieces([l] + ls, body);
      ps != [] && ps[0] == Printed(l, ls, body) && ps[1..] == Pieces(ls, body)
  {
    assert ([l] + ls)[1..] == ls;
  }

  lemma {:induction false} Step(m: Msg, l: string, ls: seq<string>, body: string)
    requires GoodLine(l)
    ensures Lines(m, [l] + ls, body) == Lines(HandleLine(m, Printed(l, ls, body)), ls, body)
  {
    PiecesCons(l, ls, body);
    assert (l + "\r")[0] != '\r';
  }

  lemma {:induction false} HeadersCons(m: Msg, ps: seq<Piece>)
    requires ps != []
    ensures Headers(m, ps) == Headers(AfterLine(m, ps[0]), ps[1..])
  {
  }

  lemma {:induction false} LinesDone(m: Msg, body: string)
    ensures Lines(m, [], body) == m
  {
    var ps := Pieces([], body);
    assert |ps| == 1 && ps[0].line == "\r" && ps[1..] == [];
    assert AfterLine(m, ps[0]) == m;
    assert Headers(m, ps) == Headers(m, ps[1..]);
    assert Headers(m, []) == m;
  }

  lemma {:induction false} GoodValueLine(name: string, v: string)
    requires GoodLine(name) && Plain(v)
    ensures GoodLine(name + " " + v) && (name + " " + v + "\r")[|name|..] == [' '] + v + ['\r']
  {
  }

  /** A value line, once its header is known. */
  lemma {:induction false} StepValue(m: Msg, name: string, v: string, ls: seq<string>, body: string, h: Header)
    requires Classify(name + " " + v + "\r") == (h, |name|) && !h.ContentLength?
    requires GoodLine(name) && Plain(v)
    ensures Lines(m, [name + " " + v] + ls, body) == Lines(Store(m, h, [' '] + v + ['\r']), ls, body)
  {
    GoodValueLine(name, v);
    SkipIs(name + " " + v + "\r", |name|);
    Step(m, name + " " + v, ls, body);
  }

  // ------------------------------------------------- one lemma per header

  lemma {:induction false} ViaLine(m: Msg, v: string, ls: seq<string>, body: string)
    requires Plain(v) && |v| < 320
    ensures Lines(m, ["Via: " + v] + ls, body)
         == Lines(if |m.vias| < 4 then m.(vias := m.vias + [Trim(v)]) else m, ls, body)
  {
    assert "Via: " + v == "Via:" + " " + v;
    var l := "Via:" + " " + v + "\r";
    assert Has(l, "via:");
    ValuePrinted(v, 320);
    StepValue(m, "Via:", v, ls, body, Via);
  }

  lemma {:induction false} FromLine(m: Msg, v: string, ls: seq<string>, body: string)
    requires Plain(v) && |v| < 320
    ensures Lines(m, ["From: " + v] + ls, body)
         == Lines(m.(from := Trim(v), fromTag := ExtractTag(Trim(v))), ls, body)
  {
    assert "From: " + v == "From:" + " " + v;
    var l := "From:" + " " + v + "\r";
    assert !Has(l, "via:") && !Has(l, "v:") by { assert Lower(l[0]) == 'f'; }
    assert Has(l, "from:");
    ValuePrinted(v, 320);
    StepValue(m, "From:", v, ls, body, From);
  }

  /** A To line may be longer than the field it is read into. */
  lemma {:induction false} ToLine(m: Msg, v: string, ls: seq<string>, body: string)
    requires Plain(v)
    ensures var w := Value([' '] + v + ['\r'], 320);
      Lines(m, ["To: " + v] + ls, body) == Lines(m.(to := w, toTag := ExtractTag(w)), ls, body)
  {
    assert "To: " + v == "To:" + " " + v;
    var l := "To:" + " " + v + "\r";
    assert Lower(l[0]) == 't';
    assert !Has(l, "via:") && !Has(l, "v:") && !Has(l, "from:") && !Has(l, "f:");
    assert Has(l, "to:");
    StepValue(m, "To:", v, ls, body, To);
  }

  lemma {:induction false} CallIdHeader(p: string)
    requires Has(p, "call-id:")
    ensures Classify(p) == (CallId, 8)
  {
    assert Lower(p[0]) == 'c';
    assert !Has(p, "via:") && !Has(p, "v:") && !Has(p, "from:") && !Has(p, "f:");
    assert !Has(p, "to:") && !Has(p, "t:");
  }

  lemma {:induction false} CSeqHeader(p: string)
    requires Has(p, "cseq:")
    ensures Classify(p) == (CSeq, 5)
  {
    assert Lower(p[0]) == 'c' && Lower(p[1]) == 's';
    assert !Has(p, "via:") && !Has(p, "v:") && !Has(p, "from:") && !Has(p, "f:");
    assert !Has(p, "to:") && !Has(p, "t:") && !Has(p, "call-id:") && !Has(p, "i:");
  }

  /** A value line however long its value: only what fits its field is kept. */
  lemma {:induction false} StoredCallId(m: Msg, v: string, ls: seq<string>, body: string)
    requires Plain(v)
    ensures Lines(m, ["Call-ID: " + v] + ls, body) == Lines(Store(m, CallId, [' '] + v + ['\r']), ls, body)
  {
    assert "Call-ID: " + v == "Call-ID:" + " " + v;
    var l := "Call-ID:" + " " + v + "\r";
    assert Has(l, "call-id:");
    CallIdHeader(l);
    StepValue(m, "Call-ID:", v, ls, body, CallId);
  }

  lemma {:induction false} CallIdLine(m: Msg, v: string, ls: seq<string>, body: string)
    requires Plain(v) && |v| < 256
    ensures Lines(m, ["Call-ID: " + v] + ls, body) == Lines(m.(callId := Trim(v)), ls, body)
  {
    StoredCallId(m, v, ls, body);
    ValuePrinted(v, 256);
  }

  lemma {:induction false} StoredCSeq(m: Msg, v: string, ls: seq<string>, body: string)
    requires Plain(v)
    ensures Lines(m, ["CSeq: " + v] + ls, body) == Lines(Store(m, CSeq, [' '] + v + ['\r']), ls, body)
  {
    assert "CSeq: " + v == "CSeq:" + " " + v;
    var l := "CSeq:" + " " + v + "\r";
    assert Has(l, "cseq:");
    CSeqHeader(l);
    StepValue(m, "CSeq:", v, ls, body, CSeq);
  }

  lemma {:induction false} CSeqLine(m: Msg, v: string, ls: seq<string>, body: string)
    requires Plain(v) && |v| < 64
    ensures Lines(m, ["CSeq: " + v] + ls, body) == Lines(SetCSeq(m, Trim(v)), ls, body)
  {
    StoredCSeq(m, v, ls, body);
    ValuePrinted(v, 64);
  }

  lemma {:induction false} ServerLine(m: Msg, ls: seq<string>, body: string)
    ensures Lines(m, ["Server: SoftmodemSIP/1.0"] + ls, body) == Lines(m, ls, body)
  {
    var v := "SoftmodemSIP/1.0";
    var l := "Server: SoftmodemSIP/1.0";
    var p := l + "\r";
    assert Lower(p[0]) == 's';
    assert Classify(p).0 == Other by { NoHeader(p); }
    Step(m, l, ls, body);
  }

  /** No header name starts with s. */
  lemma {:induction false} NoHeader(p: string)
    requires p != "" && Lower(p[0]) == 's'
    ensures Classify(p) == (Other, 0)
  {
    assert !Has(p, "via:") && !Has(p, "v:") && !Has(p, "from:") && !Has(p, "f:");
    assert !Has(p, "to:") && !Has(p, "t:") && !Has(p, "call-id:") && !Has(p, "i:");
    assert !Has(p, "cseq:") && !Has(p, "contact:") && !Has(p, "m:");
    assert !Has(p, "content-type:") && !Has(p, "user-agent:") && !Has(p, "content-length:");
  }

  lemma {:induction false} NotBeforeContent(p: string)
    requires |p| > 6 && Lower(p[0]) == 'c' && Lower(p[1]) == 'o' && Lower(p[4]) == 'e'
    ensures !Has(p, "via:") && !Has(p, "v:") && !Has(p, "from:") && !Has(p, "f:")
    ensures !Has(p, "to:") && !Has(p, "t:") && !Has(p, "call-id:") && !Has(p, "i:")
    ensures !Has(p, "cseq:") && !Has(p, "contact:") && !Has(p, "m:") && !Has(p, "user-agent:")
  {
  }

  lemma {:induction false} ContentTypeHeader(p: string)
    requires Has(p, "content-type:")
    ensures Classify(p) == (ContentType, 13)
  {
    assert Lower(p[0]) == 'c' && Lower(p[1]) == 'o' && Lower(p[4]) == 'e';
    NotBeforeContent(p);
  }

  lemma {:induction false} ContentLengthHeader(p: string)
    requires Has(p, "content-length:")
    ensures Classify(p) == (ContentLength, 15)
  {
    assert Lower(p[0]) == 'c' && Lower(p[1]) == 'o' && Lower(p[4]) == 'e' && Lower(p[8]) == 'l';
    NotBeforeContent(p);
    assert !Has(p, "content-type:");
  }

  lemma {:induction false} CTypeLine(m: Msg, v: string, ls: seq<string>, body: string)
    requires Plain(v) && |v| < 64
    ensures Lines(m, ["Content-Type: " + v] + ls, body) == Lines(m.(contentType := Trim(v)), ls, body)
  {
    assert "Content-Type: " + v == "Content-Type:" + " " + v;
    var l := "Content-Type:" + " " + v + "\r";
    assert Has(l, "content-type:");
    ContentTypeHeader(l);
    ValuePrinted(v, 64);
    StepValue(m, "Content-Type:", v, ls, body, ContentType);
  }

  lemma {:induction false} LengthValue(m: Msg, body: string, after: string)
    requires after != "" && !Digit(after[0])
    ensures HandleValue(m, Piece(LengthLine(body) + "\r", after), ContentLength, 15) == m.(contentLength := |body|)
  {
    var p := LengthLine(body) + "\r";
    SkipIs(p, 15);
    assert p[15..] + after == [' '] + Decimal(|body|) + ("\r" + after);
    AtoiDecimal(|body|, "\r" + after);
  }

  lemma {:induction false} HandleLength(m: Msg, body: string, after: string)
    requires after != "" && !Digit(after[0])
    ensures HandleLine(m, Piece(LengthLine(body) + "\r", after)) == m.(contentLength := |body|)
  {
    var p := LengthLine(body) + "\r";
    assert Has(p, "content-length:");
    ContentLengthHeader(p);
    LengthValue(m, body, after);
  }

  lemma {:induction false} LengthLineRead(m: Msg, body: string)
    ensures Lines(m, [LengthLine(body)], body) == m.(contentLength := |body|)
  {
    var l := LengthLine(body);
    assert [l] + [] == [l];
    Step(m, l, [], body);
    HandleLength(m, body, "\n" + Text([], body));
    LinesDone(m.(contentLength := |body|), body);
  }

  // ------------------------------------------------- all the header lines

  function TrimAll(vs: seq<string>): seq<string> {
    if vs == [] then [] else [Trim(vs[0])] + TrimAll(vs[1..])
  }

  /** A value as the parser stores it: no line end, no NUL, no blank in front, room for its end. */
  predicate Field(v: string, cap: nat) {
    Plain(v) && |v| < cap && (v != "" ==> !Blank(v[0]))
  }

  predicate Fields(vs: seq<string>, cap: nat) {
    forall i :: 0 <= i < |vs| ==> Field(vs[i], cap)
  }

  lemma {:induction false} ViaLinesSplit(vias: seq<string>, ls: seq<string>)
    requires vias != []
    ensures ViaLines(vias) + ls == ["Via: " + vias[0]] + (ViaLines(vias[1..]) + ls)
  {
  }

  lemma {:induction false} TrimAllSplit(before: seq<string>, vias: seq<string>)
    requires vias != []
    ensures (before + [Trim(vias[0])]) + TrimAll(vias[1..]) == before + TrimAll(vias)
  {
  }

  lemma {:induction false} ViasRead(m: Msg, vias: seq<string>, ls: seq<string>, body: string)
    requires |m.vias| + |vias| <= MAX_VIAS && Fields(vias, 320)
    ensures Lines(m, ViaLines(vias) + ls, body) == Lines(m.(vias := m.vias + TrimAll(vias)), ls, body)
    decreases |vias|
  {
    if vias == [] {
      ViasNone(m, ls, body);
    } else {
      ViaLinesSplit(vias, ls);
      ViaLine(m, vias[0], ViaLines(vias[1..]) + ls, body);
      ViasRead(m.(vias := m.vias + [Trim(vias[0])]), vias[1..], ls, body);
      TrimAllSplit(m.vias, vias);
    }
  }

  lemma {:induction false} ViasNone(m: Msg, ls: seq<string>, body: string)
    ensures Lines(m, ViaLines([]) + ls, body) == Lines(m.(vias := m.vias + TrimAll([])), ls, body)
  {
    assert [] + ls == ls;
    assert m.vias + [] == m.vias;
  }

  /** An extra header line that touches none of the fields a response is matched by. */
  predicate Harmless(l: string) {
    GoodLine(l) && (var h := Classify(l + "\r").0; h.Contact? || h.UserAgent? || h.Other?)
  }

  predicate AllHarmless(ls: seq<string>) {
    forall i :: 0 <= i < |ls| ==> Harmless(ls[i])
  }

  lemma {:induction false} HarmlessRead(m: Msg, l: string, ls: seq<string>, body: string) returns (r: Msg)
    requires Harmless(l)
    ensures Lines(m, [l] + ls, body) == Lines(r, ls, body)
    ensures r == m.(contact := r.contact, userAgent := r.userAgent)
  {
    Step(m, l, ls, body);
    r := HandleLine(m, Printed(l, ls, body));
  }

  lemma {:induction false} ExtraRead(m: Msg, extra: seq<string>, ls: seq<string>, body: string) returns (r: Msg)
    requires AllHarmless(extra)
    ensures Lines(m, extra + ls, body) == Lines(r, ls, body)
    ensures r == m.(contact := r.contact, userAgent := r.userAgent)
    decreases |extra|
  {
    if extra == [] {
      assert extra + ls == ls;
      r := m;
    } else {
      assert extra + ls == [extra[0]] + (extra[1..] + ls);
      var m1 := HarmlessRead(m, extra[0], extra[1..] + ls, body);
      r := ExtraRead(m1, extra[1..], ls, body);
    }
  }

  lemma {:induction false} CTypeRead(m: Msg, body: string) returns (r: Msg)
    ensures Lines(m, CTypeLines(body) + [LengthLine(body)], body) == Lines(r, [LengthLine(body)], body)
    ensures r == m.(contentType := r.contentType)
  {
    if body == "" {
      assert [] + [LengthLine(body)] == [LengthLine(body)];
      r := m;
    } else {
      r := m.(contentType := Trim("application/sdp"));
      CTypeIs();
      CTypeLine(m, "application/sdp", [LengthLine(body)], body);
    }
  }

  lemma {:induction false} CTypeIs()
    ensures "Content-Type: " + "application/sdp" == "Content-Type: application/sdp"
    ensures Plain("application/sdp")
  {
  }

  lemma {:induction false} TailRead(m: Msg, extra: seq<string>, body: string) returns (r: Msg)
    requires AllHarmless(extra)
    ensures Lines(m, TailLines(extra, body), body) == r
    ensures r == m.(contact := r.contact, userAgent := r.userAgent, contentType := r.contentType,
                    contentLength := |body|)
  {
    var rest := CTypeLines(body) + [LengthLine(body)];
    var m1 := ExtraRead(m, extra, ["Server: SoftmodemSIP/1.0"] + rest, body);
    ServerLine(m1, rest, body);
    var m2 := CTypeRead(m1, body);
    LengthLineRead(m2, body);
    r := m2.(contentLength := |body|);
  }

  /** Every printed field as the parser leaves it. */
  predicate WellFormed(m: Msg) {
    && |m.vias| <= MAX_VIAS && Fields(m.vias, 320)
    && Field(m.from, 320) && m.fromTag == ExtractTag(m.from)
    && Field(m.to, 320) && m.toTag == ExtractTag(m.to)
    && Field(m.callId, 256)
    && Field(m.cseq, 64) && m.cseqNum == Atoi(m.cseq) && |m.cseqMethod| <= 15
    && Field(m.contact, 320) && Field(m.contentType, 64) && Field(m.userAgent, 128)
    && |m.method_| <= 15 && |m.uri| <= 255
  }

  /** A generated tag: letters and digits only. */
  predicate TagText(tag: string) {
    0 < |tag| <= 63 && forall i :: 0 <= i < |tag| ==> Digit(tag[i]) || 'a' <= tag[i] <= 'f'
  }

  function ToRead(m: Msg, tag: string): string {
    Value([' '] + ToPrinted(m, tag) + ['\r'], 320)
  }

  /** What the lines up to CSeq leave in a message. */
  function Answered(m0: Msg, m: Msg, tag: string): Msg {
    SetCSeq(m0.(vias := TrimAll(m.vias), from := Trim(m.from), fromTag := ExtractTag(Trim(m.from)),
                to := ToRead(m, tag), toTag := ExtractTag(ToRead(m, tag)), callId := Trim(m.callId)),
            Trim(m.cseq))
  }

  lemma {:induction false} ToPlain(m: Msg, tag: string)
    requires WellFormed(m) && TagText(tag)
    ensures Plain(ToPrinted(m, tag))
  {
    assert Plain(tag);
    assert Plain(";tag=");
  }

  lemma {:induction false} HeadersRead(m0: Msg, m: Msg, extra: seq<string>, body: string, tag: string) returns (r: Msg)
    requires m0.vias == [] && WellFormed(m) && TagText(tag) && AllHarmless(extra)
    ensures Lines(m0, HeaderLines(m, extra, body, tag), body) == r
    ensures r == Answered(m0, m, tag).(contact := r.contact, userAgent := r.userAgent,
                                       contentType := r.contentType, contentLength := |body|)
  {
    var l5 := TailLines(extra, body);
    var l4 := ["CSeq: " + m.cseq] + l5;
    var l3 := ["Call-ID: " + m.callId] + l4;
    var l2 := ["To: " + ToPrinted(m, tag)] + l3;
    var l1 := ["From: " + m.from] + l2;
    ViasRead(m0, m.vias, l1, body);
    assert [] + TrimAll(m.vias) == TrimAll(m.vias);
    var m1 := m0.(vias := TrimAll(m.vias));
    FromLine(m1, m.from, l2, body);
    var m2 := m1.(from := Trim(m.from), fromTag := ExtractTag(Trim(m.from)));
    ToPlain(m, tag);
    ToLine(m2, ToPrinted(m, tag), l3, body);
    var m3 := m2.(to := ToRead(m, tag), toTag := ExtractTag(ToRead(m, tag)));
    CallIdLine(m3, m.callId, l4, body);
    CSeqLine(m3.(callId := Trim(m.callId)), m.cseq, l5, body);
    r := TailRead(SetCSeq(m3.(callId := Trim(m.callId)), Trim(m.cseq)), extra, body);
  }

  // ------------------------------------------------------- the first line

  function TenTo(k: nat): nat {
    if k == 0 then 1 else 10 * TenTo(k - 1)
  }

  lemma {:induction false} DecimalLength(n: nat, k: nat)
    requires k > 0 && n < TenTo(k)
    ensures |Decimal(n)| <= k
  {
    if n >= 10 { DecimalLength(n / 10, k - 1); }
  }

  lemma {:induction false} DecimalPlain(n: nat)
    ensures '\n' !in Decimal(n) && '\0' !in Decimal(n)
  {
    var d := Decimal(n);
    assert forall i :: 0 <= i < |d| ==> Digit(d[i]);
  }

  lemma {:induction false} CutLine(head: string, d: string, tail: string, cap: nat)
    requires |head| + |d| <= cap
    ensures (head + d + tail)[..Min(|head + d + tail|, cap)]
         == head + (d + tail[..Min(|tail|, cap - |head| - |d|)])
  {
  }

  lemma {:induction false} StatusOf(d: string, status: nat, rest: string, line: string)
    requires d == Decimal(status) && rest != "" && rest[0] == ' ' && line == "SIP/2.0 " + (d + rest)
    ensures "SIP/2.0" <= line && |line| > 8 && Atoi(line[8..]) == status
  {
    assert line[8..] == d + rest;
    AtoiDecimal(status, rest);
  }

  lemma {:induction false} StatusRead(status: nat, reason: string)
    requires status <= 0x7fff_ffff && Plain(reason)
    ensures FirstLine(Cleared(), StatusLine(status, reason) + "\r")
         == Cleared().(isResponse := true, status := status)
  {
    var x := StatusLine(status, reason) + "\r";
    var d := Decimal(status);
    var tail := [' '] + reason + ['\r'];
    assert TenTo(10) == 10_000_000_000;
    DecimalLength(status, 10);
    DecimalPlain(status);
    assert x == "SIP/2.0 " + d + tail;
    CutLine("SIP/2.0 ", d, tail, 511);
    var rest := tail[..Min(|tail|, 503 - |d|)];
    StatusOf(d, status, rest, x[..Min(|x|, 511)]);
    NoNulCut(x, 511);
  }

  lemma {:induction false} NoNulCut(x: string, cap: nat)
    requires '\0' !in x
    ensures CString(x[..Min(|x|, cap)]) == x[..Min(|x|, cap)]
  {
    CStringPlain(x[..Min(|x|, cap)]);
  }

  // ------------------------------------------------------- the whole message

  lemma {:induction false} GoodVias(vias: seq<string>)
    requires Fields(vias, 320)
    ensures GoodLines(ViaLines(vias))
  {
    if vias != [] {
      GoodVias(vias[1..]);
      assert GoodLine("Via: " + vias[0]);
    }
  }

  lemma {:induction false} GoodTail(extra: seq<string>, body: string)
    requires AllHarmless(extra)
    ensures GoodLines(TailLines(extra, body))
  {
    DecimalPlain(|body|);
    assert GoodLine(LengthLine(body));
    assert GoodLine("Server: SoftmodemSIP/1.0");
    assert GoodLine("Content-Type: application/sdp");
    assert GoodLines(extra);
  }

  lemma {:induction false} GoodHeaders(m: Msg, extra: seq<string>, body: string, tag: string)
    requires WellFormed(m) && TagText(tag) && AllHarmless(extra)
    ensures GoodLines(HeaderLines(m, extra, body, tag))
  {
    GoodVias(m.vias);
    GoodTail(extra, body);
    ToPlain(m, tag);
    assert GoodLine("From: " + m.from);
    assert GoodLine("To: " + ToPrinted(m, tag));
    assert GoodLine("Call-ID: " + m.callId);
    assert GoodLine("CSeq: " + m.cseq);
  }

  lemma {:induction false} GoodStatus(status: nat, reason: string)
    requires Plain(reason)
    ensures GoodLine(StatusLine(status, reason))
  {
    DecimalPlain(status);
    assert '\n' !in "SIP/2.0 ";
  }

  lemma {:induction false} BodyOfText(ls: seq<string>, body: string)
    ensures Text(ls, body)[|Join(ls)| + 2..] == body
  {
  }

  /** How the parser cuts a printed message up. */
  lemma {:induction false} PrintedParts(l: string, ls: seq<string>, body: string)
    requires GoodLine(l) && GoodLines(ls)
    ensures Parse(Text([l] + ls, body)) == WithBody(Lines(FirstLine(Cleared(), l + "\r"), ls, body), body)
  {
    SepAfterLines([l] + ls, body);
    ScanPrinted([l] + ls, body);
    PiecesCons(l, ls, body);
    BodyOfText([l] + ls, body);
    ParseOf(Text([l] + ls, body), |Join([l] + ls)| + 2, Pieces([l] + ls, body), body);
  }

  lemma {:induction false} ParseOf(text: string, k: nat, ps: seq<Piece>, body: string)
    requires k <= |text| && FindSep(text) == k && Scan(text, k, "") == ps && text[k..] == body
    ensures Parse(text) == ParseLines(ps, body)
  {
  }

  lemma {:induction false} ResponseRead(m: Msg, status: nat, reason: string, extra: seq<string>,
                                        body: string, tag: string)
    returns (r: Msg)
    requires WellFormed(m) && TagText(tag) && AllHarmless(extra)
    requires status <= 0x7fff_ffff && Plain(reason) && |body| <= MAX_MSG
    ensures r == Parse(Response(m, status, reason, extra, body, tag))
    ensures r == Answered(Cleared().(isResponse := true, status := status), m, tag)
                 .(contact := r.contact, userAgent := r.userAgent, contentType := r.contentType,
                   contentLength := |body|, body := body)
  {
    var m0 := Cleared().(isResponse := true, status := status);
    var ls := HeaderLines(m, extra, body, tag);
    GoodStatus(status, reason);
    GoodHeaders(m, extra, body, tag);
    PrintedParts(StatusLine(status, reason), ls, body);
    StatusRead(status, reason);
    var r1 := HeadersRead(m0, m, extra, body, tag);
    r := WithBody(r1, body);
    assert body[..|body|] == body;
  }

  // ------------------------------------------------- what the parser leaves

  lemma {:induction false} ValueIsField(s: string, cap: nat)
    requires cap > 0 && '\n' !in s
    ensures Field(Value(s, cap), cap)
  {
    ValueFits(s, cap);
    TrimLeftFixed(TrimRight(s));
    var t := Trim(s);
    CStringIsPlain(t[..Min(|t|, cap - 1)]);
  }

  lemma {:induction false} StoreKeeps(m: Msg, h: Header, v: string)
    requires WellFormed(m) && '\n' !in v
    ensures WellFormed(Store(m, h, v)) && Store(m, h, v).body == m.body
  {
    match h {
      case Via => ValueIsField(v, 320);
      case From => ValueIsField(v, 320);
      case To => ValueIsField(v, 320);
      case CallId => ValueIsField(v, 256);
      case CSeq => ValueIsField(v, 64);
      case Contact => ValueIsField(v, 320);
      case ContentType => ValueIsField(v, 64);
      case UserAgent => ValueIsField(v, 128);
      case _ =>
    }
  }

  lemma {:induction false} ValueKeeps(m: Msg, p: Piece, h: Header, k: nat)
    requires WellFormed(m) && '\n' !in p.line && k <= |p.line|
    ensures WellFormed(HandleValue(m, p, h, k)) && HandleValue(m, p, h, k).body == m.body
  {
    SkipNoLineEnd(p.line, k);
    StoreKeeps(m, h, Skip(p.line, k));
  }

  lemma {:induction false} HandleKeeps(m: Msg, p: Piece)
    requires WellFormed(m) && '\n' !in p.line
    ensures WellFormed(HandleLine(m, p)) && HandleLine(m, p).body == m.body
  {
    var c := Classify(p.line);
    ValueKeeps(m, p, c.0, c.1);
  }

  lemma {:induction false} SkipNoLineEnd(s: string, k: nat)
    requires k <= |s| && '\n' !in s
    ensures '\n' !in Skip(s, k)
  {
    if k > 0 { SkipNoLineEnd(s[1..], k - 1); }
  }

  predicate OneLined(ps: seq<Piece>) {
    forall i :: 0 <= i < |ps| ==> '\n' !in ps[i].line
  }

  lemma {:induction false} ScanOneLined(s: string, n: nat, line: string)
    requires n <= |s| && '\n' !in line
    ensures OneLined(Scan(s, n, line))
    decreases n
  {
    if n > 0 { ScanOneLined(s[1..], n - 1, if s[0] == '\n' then "" else line + [s[0]]); }
  }

  lemma {:induction false} HeadersKeep(m: Msg, ps: seq<Piece>)
    requires WellFormed(m) && OneLined(ps)
    ensures WellFormed(Headers(m, ps)) && Headers(m, ps).body == m.body
    decreases |ps|
  {
    if ps != [] {
      HandleKeeps(m, ps[0]);
      HeadersKeep(AfterLine(m, ps[0]), ps[1..]);
    }
  }

  lemma {:induction false} FirstFits(text: string)
    ensures WellFormed(FirstLine(Cleared(), text)) && FirstLine(Cleared(), text).body == ""
  {
  }

  /** Whatever was received, every parsed field is plain, fits its buffer and has its tag. */
  lemma {:induction false} ParseFits(buf: string)
    ensures WellFormed(Parse(buf)) && |Parse(buf).body| <= 4096
  {
    var body := FindSep(buf);
    ScanOneLined(buf, body, "");
    LinesFit(Scan(buf, body, ""), buf[body..]);
  }

  lemma {:induction false} LinesFit(ps: seq<Piece>, after: string)
    requires OneLined(ps)
    ensures var r := ParseLines(ps, after); WellFormed(r) && |r.body| <= MAX_MSG
  {
    if ps == [] {
      FirstFits("");
      BodyKeeps(FirstLine(Cleared(), ""), after);
    } else {
      FirstFits(ps[0].line);
      HeadersKeep(FirstLine(Cleared(), ps[0].line), ps[1..]);
      BodyKeeps(Headers(FirstLine(Cleared(), ps[0].line), ps[1..]), after);
    }
  }

  lemma {:induction false} BodyKeeps(m: Msg, s: string)
    requires WellFormed(m) && m.body == ""
    ensures WellFormed(WithBody(m, s)) && |WithBody(m, s).body| <= MAX_MSG
  {
  }

  // ------------------------------------------------------------ the To tag

  lemma {:induction false} UntilTagEndAll(tag: string, room: nat)
    requires |tag| <= room && forall i :: 0 <= i < |tag| ==> !TagEnd(tag[i])
    ensures UntilTagEnd(tag, room) == tag
  {
    if tag != "" {
      UntilTagEndAll(tag[1..], room - 1);
      assert tag == [tag[0]] + tag[1..];
    }
  }

  lemma {:induction false} UntilTagEndShort(s: string, room: nat)
    ensures |UntilTagEnd(s, room)| <= |s|
  {
    if s != "" && !TagEnd(s[0]) && room != 0 { UntilTagEndShort(s[1..], room - 1); }
  }

  /** Text after a ';' cannot complete a "tag=" begun before it. */
  lemma {:induction false} FindTagAcross(a: string, y: string)
    requires y == "" || y[0] == ';'
    ensures FindTag(a) == |a| ==> FindTag(a + y) == |a| + FindTag(y)
    ensures FindTag(a) < |a| ==> FindTag(a + y) == FindTag(a)
  {
    if a == "" {
      assert a + y == y;
    } else {
      assert (a + y)[1..] == a[1..] + y;
      NoTagAcross(a, y);
      if !("tag=" <= a) { FindTagAcross(a[1..], y); }
    }
  }

  lemma {:induction false} NoTagAcross(a: string, y: string)
    requires a != "" && (y == "" || y[0] == ';')
    ensures "tag=" <= a + y <==> "tag=" <= a
  {
    assert |a| < 4 && y != "" ==> (a + y)[|a|] != "tag="[|a|];
  }

  /** The tag read out of "<to>;tag=<tag>" cut after k characters. */
  lemma {:induction false} CutTag(a: string, tag: string, k: nat)
    requires TagText(tag) && |a| <= k <= |a| + 5 + |tag|
    ensures FindTag(a) == |a|
      ==> (ExtractTag((a + ";tag=" + tag)[..k]) == tag <==> k == |a| + 5 + |tag|)
    ensures FindTag(a) < |a| && ExtractTag(a) == "" ==> ExtractTag((a + ";tag=" + tag)[..k]) == ""
  {
    var y := (";tag=" + tag)[..k - |a|];
    var w := (a + ";tag=" + tag)[..k];
    assert w == a + y;
    FindTagAcross(a, y);
    if FindTag(a) == |a| {
      ExtractAcross(a, y);
      CutSuffix(tag, y);
    } else {
      var i := FindTag(a);
      assert a[i..][4..] == a[i + 4..];
      assert w[i + 4..] == a[i + 4..] + y;
    }
  }

  lemma {:induction false} SuffixTag(y: string, tag: string)
    requires y <= ";tag=" + tag
    ensures y != "" ==> FindTag(y) >= 1
    ensures |y| == 5 + |tag| ==> FindTag(y) == 1 && y[5..] == tag
  {
    var z := ";tag=" + tag;
    assert z[0] == ';' && z[1..] == "tag=" + tag;
    if y != "" { assert y[0] == ';'; }
    if |y| == 5 + |tag| { assert y == z && "tag=" <= y[1..]; }
  }

  lemma {:induction false} ExtractAcross(a: string, y: string)
    requires FindTag(a + y) == |a| + FindTag(y)
    ensures ExtractTag(a + y) == ExtractTag(y)
  {
    var i := FindTag(y);
    if i < |y| { DropAcross(a, y, i + 4); }
  }

  lemma {:induction false} DropAcross(a: string, y: string, k: nat)
    requires k <= |y|
    ensures (a + y)[|a| + k..] == y[k..]
  {
  }

  lemma {:induction false} CutSuffix(tag: string, y: string)
    requires TagText(tag) && y <= ";tag=" + tag
    ensures ExtractTag(y) == tag <==> |y| == 5 + |tag|
  {
    SuffixTag(y, tag);
    var i := FindTag(y);
    if i < |y| {
      UntilTagEndShort(y[i + 4..], 63);
      UntilTagEndAll(tag, 63);
    }
  }

  /** The To header printed, read back: trimmed as received, or the start of To;tag=Tag. */
  lemma {:induction false} ToReadIs(m: Msg, tag: string)
    requires WellFormed(m) && TagText(tag)
    ensures m.toTag != "" ==> ToRead(m, tag) == Trim(m.to)
    ensures m.toTag == "" ==>
      var t := m.to + ";tag=" + tag; ToRead(m, tag) == t[..Min(|t|, 319)]
  {
    if m.toTag != "" {
      ValuePrinted(m.to, 320);
    } else {
      var t := m.to + ";tag=" + tag;
      TrimPrinted(t);
      ToTrimmed(m.to, tag);
      ToPlain(m, tag);
      CStringPlain(t[..Min(|t|, 319)]);
    }
  }

  lemma {:induction false} ToTrimmed(a: string, tag: string)
    requires TagText(tag) && (a != "" ==> !Blank(a[0]))
    ensures Trim(a + ";tag=" + tag) == a + ";tag=" + tag
  {
    var t := a + ";tag=" + tag;
    assert t[|t| - 1] == tag[|tag| - 1];
    assert TrimRight(t) == t;
    assert !Blank(t[0]);
  }

  // ---------------------------------------------------------- main results

  /** A response the caller may ask for: C strings, whole extra lines, all of it in the buffer. */
  predicate Printable(m: Msg, status: nat, reason: string, extra: seq<string>, body: string, tag: string) {
    && status <= 0x7fff_ffff && Plain(reason) && AllHarmless(extra) && '\0' !in body && TagText(tag)
    && |Response(m, status, reason, extra, body, tag)| < MAX_MSG
  }

  /**
   For every received text, parsing the response to it gives back the status, the Via list
   in order, From, Call-ID and CSeq as stored and trimmed, and the body; To is as stored or
   has only a tag appended, as far as its 319 characters go.
   */
  lemma {:induction false} ResponseReadsBack(buf: string, status: nat, reason: string, extra: seq<string>,
                                             body: string, tag: string)
    requires Printable(Parse(buf), status, reason, extra, body, tag)
    ensures var m := Parse(buf);
      var r := Parse(Response(m, status, reason, extra, body, tag));
      && r.isResponse && r.status == status
      && r.vias == TrimAll(m.vias)
      && r.from == Trim(m.from) && r.fromTag == ExtractTag(Trim(m.from))
      && r.callId == Trim(m.callId)
      && r.cseq == Trim(m.cseq) && r.cseqNum == Atoi(Trim(m.cseq))
      && r.body == body && r.contentLength == |body|
      && (m.toTag != "" ==> r.to == Trim(m.to))
      && (m.toTag == "" ==> var t := m.to + ";tag=" + tag; r.to == t[..Min(|t|, 319)])
      && r.toTag == ExtractTag(r.to)
  {
    var m := Parse(buf);
    ParseFits(buf);
    ToReadIs(m, tag);
    BodyInText(m, status, reason, extra, body, tag);
    var r := ResponseRead(m, status, reason, extra, body, tag);
  }

  lemma {:induction false} BodyInText(m: Msg, status: nat, reason: string, extra: seq<string>,
                                      body: string, tag: string)
    ensures |body| <= |Response(m, status, reason, extra, body, tag)|
  {
  }

  /** Nothing is lost exactly when no stored field ends in a blank or carriage return. */
  lemma {:induction false} FieldsReadBackExactly(buf: string, status: nat, reason: string, extra: seq<string>,
                                                 body: string, tag: string)
    requires Printable(Parse(buf), status, reason, extra, body, tag)
    ensures var m := Parse(buf);
      var r := Parse(Response(m, status, reason, extra, body, tag));
      && (r.vias == m.vias <==> forall i :: 0 <= i < |m.vias| ==> Clean(m.vias[i]))
      && (r.from == m.from <==> Clean(m.from)) && (Clean(m.from) ==> r.fromTag == m.fromTag)
      && (r.callId == m.callId <==> Clean(m.callId))
      && (r.cseq == m.cseq <==> Clean(m.cseq)) && (Clean(m.cseq) ==> r.cseqNum == m.cseqNum)
  {
    var m := Parse(buf);
    ParseFits(buf);
    ResponseReadsBack(buf, status, reason, extra, body, tag);
    TrimAllExact(m.vias);
    CleanIsTrimmed(m.from);
    CleanIsTrimmed(m.callId);
    CleanIsTrimmed(m.cseq);
  }

  lemma {:induction false} TrimAllExact(vs: seq<string>)
    requires Fields(vs, 320)
    ensures |TrimAll(vs)| == |vs|
    ensures TrimAll(vs) == vs <==> forall i :: 0 <= i < |vs| ==> Clean(vs[i])
  {
    if vs != [] {
      CleanIsTrimmed(vs[0]);
      TrimAllExact(vs[1..]);
      assert vs == [vs[0]] + vs[1..];
      assert TrimAll(vs) == vs <==> Trim(vs[0]) == vs[0] && TrimAll(vs[1..]) == vs[1..];
      assert forall i :: 0 < i < |vs| ==> vs[i] == vs[1..][i - 1];
    }
  }

  /**
   The response's To tag. A request that has one keeps it when To ends clean; one that has
   none gets exactly the new tag if and only if its To holds no "tag=" and leaves room.
   */
  lemma {:induction false} ToTagReadsBack(buf: string, status: nat, reason: string, extra: seq<string>,
                                          body: string, tag: string)
    requires Printable(Parse(buf), status, reason, extra, body, tag)
    ensures var m := Parse(buf);
      var r := Parse(Response(m, status, reason, extra, body, tag));
      && (m.toTag != "" ==> (r.to == m.to <==> Clean(m.to)) && (Clean(m.to) ==> r.toTag == m.toTag))
      && (m.toTag == "" ==>
            (r.toTag == tag <==> FindTag(m.to) == |m.to| && |m.to| + 5 + |tag| <= 319))
  {
    var m := Parse(buf);
    ParseFits(buf);
    ResponseReadsBack(buf, status, reason, extra, body, tag);
    CleanIsTrimmed(m.to);
    if m.toTag == "" {
      var t := m.to + ";tag=" + tag;
      CutTag(m.to, tag, Min(|t|, 319));
    }
  }

  // ------------------------------------------------- requests that lose something

  function Letters(n: nat): string {
    seq(n, _ => 'a')
  }

  lemma {:induction false} LettersPlain(n: nat)
    ensures Plain(Letters(n)) && FindTag(Letters(n)) == n
  {
    if n > 0 {
      LettersPlain(n - 1);
      assert Letters(n)[1..] == Letters(n - 1);
      assert Letters(n)[0] != "tag="[0];
    }
  }

  /** A request of one start line and one header. */
  function OneHeader(l: string): string {
    Text(["X"] + [l], "")
  }

  lemma {:induction false} OneHeaderRead(l: string, m: Msg)
    requires GoodLine(l) && Lines(FirstLine(Cleared(), "X" + "\r"), [l], "") == m
    ensures Parse(OneHeader(l)) == m
  {
    PrintedParts("X", [l], "");
  }

  lemma {:induction false} CutValue(v: string, cap: nat)
    requires Plain(v) && Clean(v) && 0 < cap <= |v| && !Blank(v[0])
    ensures Value([' '] + v + ['\r'], cap) == v[..cap - 1]
  {
    TrimPrinted(v);
    CleanIsTrimmed(v);
    CStringPlain(v[..cap - 1]);
  }

  /** A CSeq of 64 characters is cut behind its 63rd; if that is a blank it will be lost. */
  lemma {:induction false} CutCSeqUnclean()
    ensures exists buf :: !Clean(Parse(buf).cseq)
  {
    var v := Letters(62) + " b";
    LettersPlain(62);
    CutValue(v, 64);
    var m := FirstLine(Cleared(), "X" + "\r");
    var r := Store(m, CSeq, [' '] + v + ['\r']);
    assert ["CSeq: " + v] + [] == ["CSeq: " + v];
    StoredCSeq(m, v, [], "");
    LinesDone(r, "");
    assert GoodLine("CSeq: " + v);
    OneHeaderRead("CSeq: " + v, r);
    CutBehindBlank(v);
    assert !Clean(Parse(OneHeader("CSeq: " + v)).cseq);
  }

  lemma {:induction false} CutBehindBlank(v: string)
    requires |v| >= 63 && v[62] == ' '
    ensures !Clean(v[..63])
  {
  }

  lemma {:induction false} JoinLength(l: string, ls: seq<string>)
    ensures |Join([l] + ls)| == |l| + 2 + |Join(ls)|
  {
    assert ([l] + ls)[1..] == ls;
  }

  /** The response to a request that has a To and nothing else. */
  lemma {:induction false} ShortResponse(m: Msg, tag: string)
    requires m.vias == [] && m.from == "" && m.callId == "" && m.cseq == "" && |m.to| < 320 && TagText(tag)
    ensures |Response(m, 200, "OK", [], "", tag)| < MAX_MSG
  {
    assert TenTo(3) == 1000;
    DecimalLength(200, 3);
    DecimalLength(0, 1);
    var l5 := TailLines([], "");
    assert l5 == ["Server: SoftmodemSIP/1.0"] + [LengthLine("")];
    JoinLength("Server: SoftmodemSIP/1.0", [LengthLine("")]);
    assert [LengthLine("")] + [] == [LengthLine("")];
    JoinLength(LengthLine(""), []);
    var l4 := ["CSeq: " + m.cseq] + l5;
    JoinLength("CSeq: " + m.cseq, l5);
    var l3 := ["Call-ID: " + m.callId] + l4;
    JoinLength("Call-ID: " + m.callId, l4);
    var l2 := ["To: " + ToPrinted(m, tag)] + l3;
    JoinLength("To: " + ToPrinted(m, tag), l3);
    var l1 := ["From: " + m.from] + l2;
    JoinLength("From: " + m.from, l2);
    assert HeaderLines(m, [], "", tag) == l1;
    JoinLength(StatusLine(200, "OK"), l1);
  }

  lemma {:induction false} ToHeaderOnly(v: string)
    requires Field(v, 320) && Clean(v)
    ensures var m := Parse(OneHeader("To: " + v));
      m.vias == [] && m.from == "" && m.callId == "" && m.cseq == "" && m.to == v && m.toTag == ExtractTag(v)
  {
    ValuePrinted(v, 320);
    CleanIsTrimmed(v);
    var m := FirstLine(Cleared(), "X" + "\r");
    var r := m.(to := v, toTag := ExtractTag(v));
    assert ["To: " + v] + [] == ["To: " + v];
    ToLine(m, v, [], "");
    LinesDone(r, "");
    assert GoodLine("To: " + v);
    OneHeaderRead("To: " + v, r);
  }

  /** A request with a long To and no tag: in the response the tag that is added gets cut. */
  lemma {:induction false} LongToLosesTag(tag: string) returns (buf: string)
    requires TagText(tag)
    ensures var m := Parse(buf);
      && Printable(m, 200, "OK", [], "", tag) && m.toTag == ""
      && Parse(Response(m, 200, "OK", [], "", tag)).toTag != tag
  {
    var v := Letters(319);
    LettersPlain(319);
    ToHeaderOnly(v);
    buf := OneHeader("To: " + v);
    TagLost(buf, tag);
  }

  lemma {:induction false} TagLost(buf: string, tag: string)
    requires var m := Parse(buf);
      m.vias == [] && m.from == "" && m.callId == "" && m.cseq == "" && |m.to| == 319 && m.toTag == ""
    requires TagText(tag)
    ensures Printable(Parse(buf), 200, "OK", [], "", tag)
    ensures Parse(Response(Parse(buf), 200, "OK", [], "", tag)).toTag != tag
  {
    ShortResponse(Parse(buf), tag);
    ToTagReadsBack(buf, 200, "OK", [], "", tag);
  }
}
