/** `buildPemTrustchain` of internal/issuer/horizon/util.go, and a reader of PEM text (section 3 of
    RFC 7468) that undoes it. */
module TrustChain {
  /** A certificate as Horizon returns it: its PEM text, and whether it is self-signed. */
  datatype Cf = Cf(pem: string, selfSigned: bool)

  // ----- The writer -----

  /** The text stored as the request's certificate. */
  function Chain(certs: seq<Cf>): string {
    if |certs| == 0 then ""
    else if |certs| == 1 then if certs[0].selfSigned then "" else certs[0].pem
    else certs[0].pem + "\n" + Chain(certs[1..])
  }

  /** The text stored as the request's CA. */
  function Ca(certs: seq<Cf>): string {
    if |certs| > 0 && certs[|certs| - 1].selfSigned then certs[|certs| - 1].pem else ""
  }

  method BuildPemTrustchain(certs: seq<Cf>) returns (chain: string, ca: string)
    ensures chain == Chain(certs) && ca == Ca(certs)
  {
    chain, ca := "", "";
    for i := 0 to |certs|
      invariant chain + Chain(certs[i..]) == Chain(certs)
      invariant ca == if i == |certs| then Ca(certs) else ""
    {
      ghost var before := chain;
      assert certs[i..][1..] == certs[i + 1..];
      if i == |certs| - 1 {
        if certs[i].selfSigned {
          ca := certs[i].pem;
        } else {
          chain := chain + certs[i].pem;
        }
        assert certs[i + 1..] == [];
      } else {
        chain := chain + certs[i].pem + "\n";
        assert chain + Chain(certs[i + 1..]) == before + (certs[i].pem + "\n" + Chain(certs[i + 1..]));
      }
    }
    assert certs[|certs|..] == [];
  }

  /** The certificate field is left empty, and the request unissued, on exactly these answers. */
  lemma {:induction false} ChainEmptyExactly(certs: seq<Cf>)
    ensures Chain(certs) == "" <==>
            || certs == []
            || (|certs| == 1 && (certs[0].selfSigned || certs[0].pem == ""))
  {
    if |certs| > 1 {
      assert Chain(certs)[|certs[0].pem|] == '\n';
    }
  }

  // ----- The reader -----

  function Lines(text: string): (lines: seq<string>)
    ensures |lines| > 0
  {
    if text == "" then [""]
    else
      var rest := Lines(text[1..]);
      if text[0] == '\n' then [""] + rest else [[text[0]] + rest[0]] + rest[1..]
  }

  /** What a reader makes of a line: an opening boundary, a closing one, or text. */
  datatype Mark = Opening | Closing | Plain

  /** The boundaries are a parameter: conservation holds for any in which the empty line is text. */
  type Syntax = m: string -> Mark | m("") == Plain witness line => Plain

  datatype Scan = Outside | Inside(body: seq<string>)

  function Step(m: Syntax, line: string, scan: Scan): Scan {
    match scan
    case Outside => if m(line) == Opening then Inside([]) else Outside
    case Inside(body) => if m(line) == Closing then Outside else Inside(body + [line])
  }

  /** The bodies of the certificates between encapsulation boundaries; other text is ignored. */
  function Blocks(m: Syntax, lines: seq<string>, scan: Scan): seq<seq<string>> {
    if lines == [] then []
    else
      var closed := if scan.Inside? && m(lines[0]) == Closing then [scan.body] else [];
      closed + Blocks(m, lines[1..], Step(m, lines[0], scan))
  }

  function Rest(m: Syntax, lines: seq<string>, scan: Scan): Scan {
    if lines == [] then scan else Rest(m, lines[1..], Step(m, lines[0], scan))
  }

  function Read(m: Syntax, text: string): seq<seq<string>> {
    Blocks(m, Lines(text), Outside)
  }

  /** Text holding one certificate and no unclosed boundary, with or without a final newline. */
  predicate WellFormed(m: Syntax, pem: string) {
    |Read(m, pem)| == 1 && Rest(m, Lines(pem), Outside) == Outside
  }

  function Body(m: Syntax, pem: string): seq<string>
    requires WellFormed(m, pem)
  {
    Read(m, pem)[0]
  }

  function Bodies(m: Syntax, certs: seq<Cf>): (bodies: seq<seq<string>>)
    requires forall c :: c in certs ==> WellFormed(m, c.pem)
    ensures |bodies| == |certs|
    ensures forall i :: 0 <= i < |certs| ==> bodies[i] == Body(m, certs[i].pem)
  {
    if certs == [] then [] else [Body(m, certs[0].pem)] + Bodies(m, certs[1..])
  }

  lemma {:induction false} LinesOfJoin(a: string, b: string)
    ensures Lines(a + "\n" + b) == Lines(a) + Lines(b)
  {
    var t := a + "\n" + b;
    if a == "" {
      assert t[1..] == b;
    } else {
      assert t[0] == a[0] && t[1..] == a[1..] + "\n" + b;
      LinesOfJoin(a[1..], b);
    }
  }

  lemma {:induction false} ReadOfJoin(m: Syntax, a: seq<string>, b: seq<string>, scan: Scan)
    ensures Blocks(m, a + b, scan) == Blocks(m, a, scan) + Blocks(m, b, Rest(m, a, scan))
    ensures Rest(m, a + b, scan) == Rest(m, b, Rest(m, a, scan))
  {
    if a == [] {
      assert a + b == b;
    } else {
      assert (a + b)[1..] == a[1..] + b;
      ReadOfJoin(m, a[1..], b, Step(m, a[0], scan));
    }
  }

  lemma ReadOfNothing(m: Syntax)
    ensures Read(m, "") == []
  {
    assert Lines("")[1..] == [];
  }

  /** A certificate followed by a newline and more text reads as that certificate and the rest. */
  lemma ReadOfPrefix(m: Syntax, pem: string, text: string)
    requires WellFormed(m, pem)
    ensures Read(m, pem + "\n" + text) == [Body(m, pem)] + Read(m, text)
  {
    LinesOfJoin(pem, text);
    ReadOfJoin(m, Lines(pem), Lines(text), Outside);
  }

  lemma FrontOfChain(certs: seq<Cf>)
    requires |certs| > 1
    ensures Chain(certs) == certs[0].pem + "\n" + Chain(certs[1..])
    ensures Ca(certs) == Ca(certs[1..])
  {
  }

  lemma OneCertificate(m: Syntax, cert: Cf)
    requires WellFormed(m, cert.pem)
    ensures Read(m, Chain([cert])) + Read(m, Ca([cert])) == [Body(m, cert.pem)]
  {
    ReadOfNothing(m);
    assert Read(m, cert.pem) == [Body(m, cert.pem)];
  }

  /** Nothing is lost, reordered or duplicated: the chain and then the CA hold the certificates. */
  lemma {:induction false} Conservation(m: Syntax, certs: seq<Cf>)
    requires forall c :: c in certs ==> WellFormed(m, c.pem)
    ensures Read(m, Chain(certs)) + Read(m, Ca(certs)) == Bodies(m, certs)
  {
    if |certs| == 0 {
      ReadOfNothing(m);
    } else if |certs| == 1 {
      OneCertificate(m, certs[0]);
      assert certs == [certs[0]];
    } else {
      Conservation(m, certs[1..]);
      FrontOfChain(certs);
      ReadOfPrefix(m, certs[0].pem, Chain(certs[1..]));
      Regroup([Body(m, certs[0].pem)], Read(m, Chain(certs[1..])), Read(m, Ca(certs)));
    }
  }

  lemma Regroup<T>(a: seq<T>, b: seq<T>, c: seq<T>)
    ensures a + b + c == a + (b + c)
  {
  }

  /** The CA holds the last certificate exactly when it is self-signed, and the chain the others. */
  lemma Division(m: Syntax, certs: seq<Cf>)
    requires certs != [] && forall c :: c in certs ==> WellFormed(m, c.pem)
    ensures certs[|certs| - 1].selfSigned ==>
              && Read(m, Ca(certs)) == [Body(m, certs[|certs| - 1].pem)]
              && Read(m, Chain(certs)) == Bodies(m, certs)[..|certs| - 1]
    ensures !certs[|certs| - 1].selfSigned ==>
              Ca(certs) == "" && Read(m, Chain(certs)) == Bodies(m, certs)
  {
    Conservation(m, certs);
    ReadOfNothing(m);
    var chain := Read(m, Chain(certs));
    assert (chain + Read(m, Ca(certs)))[..|chain|] == chain;
  }

  // ----- The boundaries of a certificate -----

  const BEGIN := "-----BEGIN CERTIFICATE-----"
  const END := "-----END CERTIFICATE-----"

  /** A line without its trailing white space; this also accepts lines ended by CR LF. */
  function TrimRight(line: string): string {
    if line != "" && line[|line| - 1] in {' ', '\t', '\r'} then TrimRight(line[..|line| - 1]) else line
  }

  function MarkOf(line: string): (mark: Mark)
    ensures line == "" ==> mark == Plain
  {
    if TrimRight(line) == BEGIN then Opening else if TrimRight(line) == END then Closing else Plain
  }

  /** The syntax of RFC 7468, section 5.1. */
  const PEM: Syntax := MarkOf

  lemma MarksOfBoundaries()
    ensures MarkOf(BEGIN) == Opening && MarkOf(END) == Closing
    ensures '\n' !in BEGIN && '\n' !in END
  {
    assert BEGIN[|BEGIN| - 1] == '-' && END[|END| - 1] == '-';
    assert |BEGIN| != |END|;
  }

  // ----- The usual shape is well formed -----

  function Unlines(lines: seq<string>): string {
    if lines == [] then "" else lines[0] + "\n" + Unlines(lines[1..])
  }

  /** Two boundaries around some lines; the second may end in a newline. */
  function Armor(open: string, body: seq<string>, close: string, newline: bool): string {
    open + "\n" + (Unlines(body) + if newline then close + "\n" + "" else close)
  }

  function Pems(certs: seq<Cf>): (pems: seq<string>)
    ensures |pems| == |certs| && forall i :: 0 <= i < |certs| ==> pems[i] == certs[i].pem
  {
    if certs == [] then [] else [certs[0].pem] + Pems(certs[1..])
  }

  /** The text of the chain, character by character: every certificate but the last is followed by one
      newline, and the last is left out if it is self-signed. The text of the CA is that last one. */
  lemma {:induction false} TextOfChain(certs: seq<Cf>)
    requires certs != []
    ensures var n := |certs| - 1;
            && Chain(certs) == Unlines(Pems(certs[..n])) + (if certs[n].selfSigned then "" else certs[n].pem)
            && Ca(certs) == if certs[n].selfSigned then certs[n].pem else ""
  {
    var n := |certs| - 1;
    if n > 0 {
      var tail := certs[1..];
      var last := if certs[n].selfSigned then "" else certs[n].pem;
      TextOfChain(tail);
      FrontOfChain(certs);
      assert certs[..n][1..] == tail[..n - 1] && certs[..n][0] == certs[0];
      UnlinesOfFirst(Pems(certs[..n]), last);
      assert Pems(certs[..n])[1..] == Pems(tail[..n - 1]);
    }
  }

  lemma {:induction false} LinesOfLine(line: string)
    requires '\n' !in line
    ensures Lines(line) == [line]
  {
    if line != "" {
      LinesOfLine(line[1..]);
      assert [line[0]] + line[1..] == line;
    }
  }

  lemma LinesOfFirst(line: string, rest: string)
    requires '\n' !in line
    ensures Lines(line + "\n" + rest) == [line] + Lines(rest)
  {
    LinesOfJoin(line, rest);
    LinesOfLine(line);
  }

  lemma UnlinesOfFirst(lines: seq<string>, tail: string)
    requires lines != []
    ensures Unlines(lines) + tail == lines[0] + "\n" + (Unlines(lines[1..]) + tail)
  {
    assert Unlines(lines) == lines[0] + "\n" + Unlines(lines[1..]);
  }

  lemma {:induction false} LinesOfUnlines(lines: seq<string>, tail: string)
    requires forall l :: l in lines ==> '\n' !in l
    ensures Lines(Unlines(lines) + tail) == lines + Lines(tail)
  {
    if lines == [] {
      assert Unlines(lines) + tail == tail;
    } else {
      UnlinesOfFirst(lines, tail);
      LinesOfFirst(lines[0], Unlines(lines[1..]) + tail);
      LinesOfUnlines(lines[1..], tail);
      PutFirst(lines, Lines(tail));
    }
  }

  lemma PutFirst<T>(a: seq<T>, b: seq<T>)
    requires a != []
    ensures [a[0]] + (a[1..] + b) == a + b
  {
  }

  lemma {:induction false} ReadOfBody(m: Syntax, done: seq<string>, body: seq<string>, close: string, after: seq<string>)
    requires forall l :: l in body ==> m(l) != Closing
    requires m(close) == Closing && (after == [] || after == [""])
    ensures Blocks(m, body + ([close] + after), Inside(done)) == [done + body]
    ensures Rest(m, body + ([close] + after), Inside(done)) == Outside
    decreases |body|
  {
    var all := body + ([close] + after);
    if body == [] {
      assert all[0] == close && all[1..] == after && done + body == done;
      if after != [] {
        assert after[1..] == [];
        assert Blocks(m, after, Outside) == Blocks(m, after[1..], Outside);
        assert Rest(m, after, Outside) == Rest(m, after[1..], Outside);
      }
      assert Blocks(m, all, Inside(done)) == [done] + Blocks(m, after, Outside);
      assert Rest(m, all, Inside(done)) == Rest(m, after, Outside);
    } else {
      assert all[0] == body[0] && all[1..] == body[1..] + ([close] + after);
      ReadOfBody(m, done + [body[0]], body[1..], close, after);
      assert done + [body[0]] + body[1..] == done + body;
    }
  }

  /** Boundaries around plain lines, with or without a final newline, are well formed. */
  lemma ArmorIsWellFormed(m: Syntax, open: string, body: seq<string>, close: string, newline: bool)
    requires m(open) == Opening && m(close) == Closing && '\n' !in open && '\n' !in close
    requires forall l :: l in body ==> '\n' !in l && m(l) != Closing
    ensures WellFormed(m, Armor(open, body, close, newline))
    ensures Body(m, Armor(open, body, close, newline)) == body
  {
    var last := if newline then close + "\n" + "" else close;
    var after := if newline then [""] else [];
    LinesOfLine(close);
    LinesOfJoin(close, "");
    LinesOfUnlines(body, last);
    LinesOfJoin(open, Unlines(body) + last);
    LinesOfLine(open);
    var inner := body + ([close] + after);
    assert Lines(Armor(open, body, close, newline)) == [open] + inner;
    assert ([open] + inner)[1..] == inner && [] + body == body;
    ReadOfBody(m, [], body, close, after);
  }

  /** So the PEM text of RFC 7468 is well formed whether or not it ends in a newline. */
  lemma CertificateIsWellFormed(body: seq<string>, newline: bool)
    requires forall l :: l in body ==> '\n' !in l && MarkOf(l) == Plain
    ensures WellFormed(PEM, Armor(BEGIN, body, END, newline))
    ensures Body(PEM, Armor(BEGIN, body, END, newline)) == body
  {
    MarksOfBoundaries();
    ArmorIsWellFormed(PEM, BEGIN, body, END, newline);
  }
}
