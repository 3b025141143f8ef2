/**
 parse_sip and build_response as they run (src/sip/sm_sip.c:94-280 and 377-415): pointers
 moving over the buffer, a message filled in place, a text grown line by line. Each is
 proved against its specification in Sip.
 */
module SipParser {
  import opened Bits
  import opened SipText
  import opened Sip

  /** find_eol */
  method FindEol(buf: string, s: nat, end: nat) returns (p: nat)
    requires s <= end <= |buf|
    ensures EolFrom(buf, s, end, p)
  {
    p := s;
    while p < end
      invariant s <= p <= end
      invariant forall k :: s <= k < p ==> buf[k] != '\n'
    {
      if buf[p] == '\n' {
        return;
      }
      p := p + 1;
    }
  }

  /** p is the first line end from s on, or the end. */
  predicate EolFrom(buf: string, s: nat, end: nat, p: nat)
    requires end <= |buf|
  {
    s <= p <= end && (p < end ==> buf[p] == '\n') && forall k :: s <= k < p ==> buf[k] != '\n'
  }

  /** copy_line_value: the value between start and end, read back as a C string. */
  method CopyLineValue(buf: string, start: nat, end: nat, cap: nat) returns (out: string)
    requires start <= end <= |buf| && cap > 0
    ensures out == Value(buf[start..end], cap)
  {
    var e := end;
    while e > start && (buf[e - 1] == '\r' || Blank(buf[e - 1]))
      invariant start <= e <= end
      invariant TrimRight(buf[start..e]) == TrimRight(buf[start..end])
    {
      assert buf[start..e][..e - start - 1] == buf[start..e - 1];
      e := e - 1;
    }
    assert TrimRight(buf[start..e]) == buf[start..e];
    var s := start;
    while s < e && Blank(buf[s])
      invariant start <= s <= e
      invariant TrimLeft(buf[s..e]) == TrimLeft(buf[start..e])
    {
      assert buf[s..e][1..] == buf[s + 1..e];
      s := s + 1;
    }
    var n := e - s;
    if n >= cap { n := cap - 1; }
    assert buf[s..s + n] == buf[s..e][..n];
    out := CString(buf[s..s + n]);
  }

  /** The copying loop of extract_tag. */
  method CopyUntilEnd(p: string) returns (out: string)
    ensures out == UntilTagEnd(p, 63)
  {
    out := "";
    var i := 0;
    while i < |p| && !TagEnd(p[i]) && i < 63
      invariant i <= |p| && i <= 63
      invariant out + UntilTagEnd(p[i..], 63 - i) == UntilTagEnd(p, 63)
    {
      CopyOne(out, p[i..], 63 - i);
      assert p[i..][1..] == p[i + 1..];
      out := out + [p[i]];
      i := i + 1;
    }
    assert UntilTagEnd(p[i..], 63 - i) == "";
  }

  lemma {:induction false} CopyOne(out: string, rest: string, room: nat)
    requires rest != "" && !TagEnd(rest[0]) && room > 0
    ensures out + UntilTagEnd(rest, room) == out + [rest[0]] + UntilTagEnd(rest[1..], room - 1)
  {
  }

  /** extract_tag into a field of 64 bytes */
  method CopyTag(hdr: string) returns (out: string)
    ensures out == ExtractTag(hdr)
  {
    out := "";
    var at := FindTag(hdr);
    if at < |hdr| {
      out := CopyUntilEnd(hdr[at + 4..]);
    }
  }

  /** The search for the blank line that ends the header. */
  method FindBody(buf: string) returns (body: nat)
    ensures body == FindSep(buf)
  {
    var p := 0;
    while p + 1 < |buf|
      invariant p <= |buf|
      invariant FindSep(buf) == p + FindSep(buf[p..])
    {
      if "\r\n\r\n" <= buf[p..] { return p + 4; }
      if "\n\n" <= buf[p..] { return p + 2; }
      assert buf[p..][1..] == buf[p + 1..];
      p := p + 1;
    }
    body := |buf|;
  }

  class Message {
    var m: Msg

    constructor ()
      ensures m == Cleared()
    {
      m := Cleared();
    }

    /** The first line, of which at most 511 characters are looked at. */
    method ReadFirstLine(text: string)
      modifies this
      ensures m == FirstLine(old(m), text)
    {
      var n := |text|;
      if n >= 512 { n := 511; }
      var line := CString(text[..n]);
      if "SIP/2.0" <= line {
        m := m.(isResponse := true);
        m := m.(status := Atoi(if |line| > 8 then line[8..] else ""));
      } else {
        var sp1 := IndexOf(line, ' ');
        if sp1 < |line| {
          m := m.(method_ := line[..Min(sp1, 15)]);
          var rest := line[sp1 + 1..];
          m := m.(uri := rest[..Min(IndexOf(rest, ' '), 255)]);
        }
      }
    }

    method ReadVia(buf: string, v: nat, eol: nat)
      requires v <= eol <= |buf|
      modifies this
      ensures m == Store(old(m), Via, buf[v..eol])
    {
      if |m.vias| < MAX_VIAS {
        var value := CopyLineValue(buf, v, eol, 320);
        m := m.(vias := m.vias + [value]);
      }
    }

    method ReadCSeq(buf: string, v: nat, eol: nat)
      requires v <= eol <= |buf|
      modifies this
      ensures m == Store(old(m), CSeq, buf[v..eol])
    {
      var value := CopyLineValue(buf, v, eol, 64);
      m := m.(cseq := value);
      m := m.(cseqNum := Atoi(value));
      var sp := IndexOf(value, ' ');
      if sp < |value| { m := m.(cseqMethod := value[sp + 1..][..Min(|value| - sp - 1, 15)]); }
    }

    method ReadParty(h: Header, buf: string, v: nat, eol: nat)
      requires v <= eol <= |buf| && (h.From? || h.To?)
      modifies this
      ensures m == Store(old(m), h, buf[v..eol])
    {
      var value := CopyLineValue(buf, v, eol, 320);
      var tag := CopyTag(value);
      if h.From? {
        m := m.(from := value, fromTag := tag);
      } else {
        m := m.(to := value, toTag := tag);
      }
    }

    /** The remaining headers copy one value, or nothing. */
    method ReadPlain(h: Header, buf: string, v: nat, eol: nat)
      requires v <= eol <= |buf| && !h.Via? && !h.From? && !h.To? && !h.CSeq? && !h.ContentLength?
      modifies this
      ensures m == Store(old(m), h, buf[v..eol])
    {
      match h {
        case CallId => var value := CopyLineValue(buf, v, eol, 256); m := m.(callId := value);
        case Contact => var value := CopyLineValue(buf, v, eol, 320); m := m.(contact := value);
        case ContentType => var value := CopyLineValue(buf, v, eol, 64); m := m.(contentType := value);
        case UserAgent => var value := CopyLineValue(buf, v, eol, 128); m := m.(userAgent := value);
        case Other =>
      }
    }

    method ReadValue(h: Header, buf: string, v: nat, eol: nat)
      requires v <= eol <= |buf|
      modifies this
      ensures m == if h.ContentLength? then old(m).(contentLength := Atoi(buf[v..])) else Store(old(m), h, buf[v..eol])
    {
      match h {
        case Via => ReadVia(buf, v, eol);
        case CSeq => ReadCSeq(buf, v, eol);
        case From => ReadParty(h, buf, v, eol);
        case To => ReadParty(h, buf, v, eol);
        case ContentLength => m := m.(contentLength := Atoi(buf[v..]));
        case _ => ReadPlain(h, buf, v, eol);
      }
    }

    /** One header line, from s up to its end. */
    method ReadHeader(buf: string, s: nat, eol: nat)
      requires s <= eol <= |buf|
      modifies this
      ensures m == HandleLine(old(m), PieceAt(buf, s, eol))
    {
      var c := Classify(buf[s..eol]);
      LinePieces(buf, s, c.1, eol);
      ReadValue(c.0, buf, s + c.1, eol);
    }

    method ReadLine(buf: string, s: nat, eol: nat)
      requires s <= eol <= |buf|
      modifies this
      ensures m == AfterLine(old(m), PieceAt(buf, s, eol))
    {
      if !(s == eol || (buf[s] == '\r' && eol - s == 1)) {
        ReadHeader(buf, s, eol);
      }
    }

    /** One turn of the header loop. */
    method ReadNext(buf: string, s: nat, body: nat, ghost todo: seq<Piece>) returns (next: nat)
      requires s < body <= |buf| && todo == Remaining(buf, s, body)
      modifies this
      ensures s < next <= body + 1 && todo != [] && todo[1..] == Remaining(buf, next, body)
      ensures m == AfterLine(old(m), todo[0])
    {
      var eol := FindEol(buf, s, body);
      ScanNext(buf, s, body, eol);
      ReadLine(buf, s, eol);
      next := eol + 1;
    }

    method ReadHeaders(buf: string, start: nat, body: nat)
      requires start <= body <= |buf|
      modifies this
      ensures m == Headers(old(m), Remaining(buf, start, body))
    {
      var s := start;
      ghost var all := Remaining(buf, start, body);
      ghost var todo := all;
      while s < body
        invariant start <= s <= body + 1
        invariant todo == Remaining(buf, s, body) && Headers(old(m), all) == Headers(m, todo)
      {
        ghost var before := m;
        s := ReadNext(buf, s, body, todo);
        HeadersCons(before, todo);
        todo := todo[1..];
      }
    }

    /** The body, cut to the announced length and to the buffer. */
    method ReadBody(buf: string, body: nat)
      requires body <= |buf|
      modifies this
      ensures m == WithBody(old(m), buf[body..])
    {
      if body < |buf| {
        var blen := |buf| - body;
        if 0 < m.contentLength < blen { blen := m.contentLength; }
        if blen > MAX_MSG { blen := MAX_MSG; }
        assert buf[body..][..blen] == buf[body..body + blen];
        m := m.(body := buf[body..body + blen]);
      }
    }

    /** parse_sip */
    method ParseSip(buf: string)
      modifies this
      ensures m == Parse(buf)
    {
      m := Cleared();
      var body := FindBody(buf);
      var eol := FindEol(buf, 0, body);
      ParseIs(buf, body, eol);
      ReadFirstLine(buf[..eol]);
      ReadRest(buf, if eol < body then eol + 1 else body, body);
    }

    method ReadRest(buf: string, s: nat, body: nat)
      requires s <= body <= |buf|
      modifies this
      ensures m == WithBody(Headers(old(m), Remaining(buf, s, body)), buf[body..])
    {
      ReadHeaders(buf, s, body);
      ReadBody(buf, body);
    }

    /** build_response; the tag is the random one the program makes. */
    method BuildResponse(status: nat, reason: string, extra: seq<string>, body: string, tag: string)
      returns (buf: string)
      ensures buf == Response(m, status, reason, extra, body, tag)
    {
      buf := StatusLine(status, reason) + "\r\n";
      var text := PrintVias();
      buf := buf + text;
      text := PrintParties(tag);
      buf := buf + text;
      text := PrintTail(extra, body);
      buf := buf + text;
      ResponseText(m, status, reason, extra, body, tag);
    }

    /** From, To, Call-ID and CSeq; a To tag is added if the request's To has none. */
    method PrintParties(tag: string) returns (buf: string)
      ensures buf == Parties(m, tag)
    {
      buf := "From: " + m.from + "\r\n";
      if m.toTag != "" {
        buf := buf + "To: " + m.to + "\r\n";
      } else {
        buf := buf + "To: " + m.to + ";tag=" + tag + "\r\n";
      }
      buf := buf + "Call-ID: " + m.callId + "\r\n";
      buf := buf + "CSeq: " + m.cseq + "\r\n";
      PartiesText(m, tag);
    }

    method PrintVias() returns (text: string)
      ensures text == Join(ViaLines(m.vias))
    {
      text := "";
      var i := 0;
      while i < |m.vias|
        invariant i <= |m.vias|
        invariant text + Join(ViaLines(m.vias[i..])) == Join(ViaLines(m.vias))
      {
        ViaText(text, m.vias[i..]);
        assert m.vias[i..][1..] == m.vias[i + 1..];
        text := text + "Via: " + m.vias[i] + "\r\n";
        i := i + 1;
      }
    }

    /** The extra headers, the fixed ones, and the body. */
    method PrintTail(extra: seq<string>, body: string) returns (buf: string)
      ensures buf == Join(TailLines(extra, body)) + "\r\n" + body
    {
      TailText(extra, body);
      CTypeText(body, FixedText(extra));
      buf := Join(extra);
      buf := buf + "Server: SoftmodemSIP/1.0" + "\r\n";
      if |body| > 0 { buf := buf + "Content-Type: application/sdp" + "\r\n"; }
      buf := buf + LengthLine(body) + "\r\n";
      buf := buf + "\r\n";
      if |body| > 0 { buf := buf + body; }
    }
  }

  // ------------------------------------------- the loop on the specification's side

  function PieceAt(buf: string, s: nat, eol: nat): Piece
    requires s <= eol <= |buf|
  {
    Piece(buf[s..eol], buf[eol..])
  }

  lemma {:induction false} LinePieces(buf: string, s: nat, off: nat, eol: nat)
    requires s + off <= eol <= |buf|
    ensures Skip(buf[s..eol], off) == buf[s + off..eol]
    ensures Skip(buf[s..eol], off) + buf[eol..] == buf[s + off..]
  {
    SkipIs(buf[s..eol], off);
  }

  /** The header lines from s on. */
  function Remaining(buf: string, s: nat, body: nat): seq<Piece>
    requires body <= |buf|
  {
    if s < body then Scan(buf[s..], body - s, "") else []
  }

  lemma {:induction false} ScanTo(buf: string, s: nat, p: nat, body: nat, eol: nat)
    requires s <= p <= eol <= body <= |buf| && forall k :: s <= k < eol ==> buf[k] != '\n'
    ensures Scan(buf[p..], body - p, buf[s..p]) == Scan(buf[eol..], body - eol, buf[s..eol])
    decreases eol - p
  {
    if p < eol {
      assert buf[p..][1..] == buf[p + 1..] && buf[s..p] + [buf[p]] == buf[s..p + 1];
      ScanTo(buf, s, p + 1, body, eol);
    }
  }

  /** One turn of the header loop takes the first of the remaining lines. */
  lemma {:induction false} ScanNext(buf: string, s: nat, body: nat, eol: nat)
    requires s < body <= |buf| && EolFrom(buf, s, body, eol)
    ensures var todo := Remaining(buf, s, body);
      todo != [] && todo[0] == PieceAt(buf, s, eol) && todo[1..] == Remaining(buf, eol + 1, body)
  {
    assert buf[s..s] == "";
    ScanTo(buf, s, s, body, eol);
    ScanAtEnd(buf, s, body, eol);
  }

  lemma {:induction false} ScanAtEnd(buf: string, s: nat, body: nat, eol: nat)
    requires s < body <= |buf| && s <= eol <= body && (eol < body ==> buf[eol] == '\n')
    ensures Scan(buf[eol..], body - eol, buf[s..eol]) == [PieceAt(buf, s, eol)] + Remaining(buf, eol + 1, body)
  {
    if eol < body { assert buf[eol..][1..] == buf[eol + 1..]; }
  }

  lemma {:induction false} ParseIs(buf: string, body: nat, eol: nat)
    requires body == FindSep(buf) && EolFrom(buf, 0, body, eol)
    ensures Parse(buf)
         == WithBody(Headers(FirstLine(Cleared(), buf[..eol]),
                             Remaining(buf, if eol < body then eol + 1 else body, body)), buf[body..])
  {
    assert buf[0..] == buf;
    if body > 0 { ScanNext(buf, 0, body, eol); }
  }

  // ------------------------------------------- the printed text on the specification's side

  lemma {:induction false} ViaText(text: string, vias: seq<string>)
    requires vias != []
    ensures text + Join(ViaLines(vias)) == text + "Via: " + vias[0] + "\r\n" + Join(ViaLines(vias[1..]))
  {
    JoinCons("Via: " + vias[0], ViaLines(vias[1..]));
  }

  lemma {:induction false} JoinConcat(a: seq<string>, b: seq<string>)
    ensures Join(a + b) == Join(a) + Join(b)
  {
    if a == [] {
      assert a + b == b;
    } else {
      assert (a + b)[1..] == a[1..] + b;
      JoinConcat(a[1..], b);
    }
  }

  lemma {:induction false} JoinCons(l: string, ls: seq<string>)
    ensures Join([l] + ls) == l + "\r\n" + Join(ls)
  {
    assert ([l] + ls)[1..] == ls;
  }

  function PartyLines(m: Msg, tag: string): seq<string> {
    ["From: " + m.from] + (["To: " + ToPrinted(m, tag)] + (["Call-ID: " + m.callId] + ["CSeq: " + m.cseq]))
  }

  function Parties(m: Msg, tag: string): string {
    Join(PartyLines(m, tag))
  }

  lemma {:induction false} PartiesText(m: Msg, tag: string)
    ensures Parties(m, tag) == "From: " + m.from + "\r\n" + ("To: " + ToPrinted(m, tag) + "\r\n"
                               + ("Call-ID: " + m.callId + "\r\n" + ("CSeq: " + m.cseq + "\r\n")))
  {
    var c := ["CSeq: " + m.cseq];
    var i := ["Call-ID: " + m.callId] + c;
    JoinCons("From: " + m.from, ["To: " + ToPrinted(m, tag)] + i);
    JoinCons("To: " + ToPrinted(m, tag), i);
    JoinCons("Call-ID: " + m.callId, c);
    JoinCons("CSeq: " + m.cseq, []);
    assert c + [] == c;
  }

  function FixedText(extra: seq<string>): string {
    Join(extra) + "Server: SoftmodemSIP/1.0" + "\r\n"
  }

  lemma {:induction false} TailText(extra: seq<string>, body: string)
    ensures Join(TailLines(extra, body)) == FixedText(extra) + Join(CTypeLines(body)) + LengthLine(body) + "\r\n"
  {
    var c := CTypeLines(body);
    var l := [LengthLine(body)];
    var server := ["Server: SoftmodemSIP/1.0"];
    JoinConcat(extra, server + (c + l));
    JoinCons(server[0], c + l);
    JoinConcat(c, l);
    assert l + [] == l;
    JoinCons(LengthLine(body), []);
    TailAssoc(Join(extra), server[0], "\r\n", Join(c), LengthLine(body), "\r\n");
  }

  lemma {:induction false} TailAssoc(a: string, b: string, c: string, d: string, e: string, f: string)
    ensures a + (b + c + (d + (e + f))) == (a + b + c) + d + e + f
  {
  }

  lemma {:induction false} CTypeText(body: string, text: string)
    ensures body == "" ==> text + Join(CTypeLines(body)) == text
    ensures body != "" ==> text + Join(CTypeLines(body)) == text + "Content-Type: application/sdp" + "\r\n"
  {
    if body != "" {
      var l := "Content-Type: application/sdp";
      assert [l] + [] == [l];
      JoinCons(l, []);
      assert Join([l]) == l + "\r\n";
      Associative(text, l, "\r\n");
    }
  }

  lemma {:induction false} ResponseText(m: Msg, status: nat, reason: string, extra: seq<string>,
                                        body: string, tag: string)
    ensures Response(m, status, reason, extra, body, tag)
         == StatusLine(status, reason) + "\r\n" + Join(ViaLines(m.vias)) + Parties(m, tag)
            + (Join(TailLines(extra, body)) + "\r\n" + body)
  {
    var tail := TailLines(extra, body);
    var status', vias, parties := StatusLine(status, reason), ViaLines(m.vias), PartyLines(m, tag);
    assert HeaderLines(m, extra, body, tag) == vias + (parties + tail);
    JoinCons(status', vias + (parties + tail));
    JoinConcat(vias, parties + tail);
    JoinConcat(parties, tail);
    Regroup(status' + "\r\n", Join(vias), Join(parties), Join(tail), "\r\n" + body);
    Associative(Join([status'] + (vias + (parties + tail))), "\r\n", body);
    Associative(Join(tail), "\r\n", body);
  }

  lemma {:induction false} Regroup(a: string, b: string, c: string, d: string, e: string)
    ensures (a + (b + (c + d))) + e == a + b + c + (d + e)
  {
  }
}
