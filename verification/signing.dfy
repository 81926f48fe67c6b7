/** The exact text both sides of a signed request sign (backend/app/bridge/identity.py:65-99). */
module Signing {

  const SIGNATURE_SCHEME := "ACT-HMAC-SHA256"

  /** Newline-joined form. */
  function Join(parts: seq<string>): string
    requires parts != []
  {
    if |parts| == 1 then parts[0] else parts[0] + ("\n" + Join(parts[1..]))
  }

  /** The pieces between newlines; one more than there are newlines. */
  function Split(text: string): (parts: seq<string>)
    ensures parts != []
  {
    if text == "" then [""]
    else
      var rest := Split(text[1..]);
      if text[0] == '\n' then [""] + rest else [[text[0]] + rest[0]] + rest[1..]
  }

  predicate OneLine(text: string) {
    '\n' !in text
  }

  /** Every line of every part, in order. */
  function Lines(parts: seq<string>): (lines: seq<string>)
    ensures |lines| >= |parts|
  {
    if parts == [] then [] else Split(parts[0]) + Lines(parts[1..])
  }

  lemma {:induction false} LinesConcat(a: seq<string>, b: seq<string>)
    ensures Lines(a + b) == Lines(a) + Lines(b)
  {
    if a == [] {
      assert a + b == b;
    } else {
      LinesConcat(a[1..], b);
      assert (a + b)[0] == a[0] && (a + b)[1..] == a[1..] + b;
      Regroup(Split(a[0]), Lines(a[1..]), Lines(b));
    }
  }

  lemma Regroup(a: seq<string>, b: seq<string>, c: seq<string>)
    ensures (a + b) + c == a + (b + c)
  {
  }

  function Glue(c: char, lines: seq<string>): seq<string>
    requires lines != []
  {
    if c == '\n' then [""] + lines else [[c] + lines[0]] + lines[1..]
  }

  lemma SplitCons(c: char, text: string)
    ensures Split([c] + text) == Glue(c, Split(text))
  {
    assert ([c] + text)[1..] == text;
  }

  lemma {:induction false} SplitCut(x: string, y: string)
    ensures Split(x + ("\n" + y)) == Split(x) + Split(y)
  {
    if x == "" {
      SplitCons('\n', y);
      assert x + ("\n" + y) == ['\n'] + y;
    } else {
      SplitCut(x[1..], y);
      assert x + ("\n" + y) == [x[0]] + (x[1..] + ("\n" + y));
      SplitCons(x[0], x[1..] + ("\n" + y));
      assert x == [x[0]] + x[1..];
      SplitCons(x[0], x[1..]);
      GlueCut(x[0], Split(x[1..]), Split(y));
    }
  }

  lemma GlueCut(c: char, xs: seq<string>, ys: seq<string>)
    requires xs != []
    ensures Glue(c, xs + ys) == Glue(c, xs) + ys
  {
  }

  lemma {:induction false} SplitJoin(parts: seq<string>)
    requires parts != []
    ensures Split(Join(parts)) == Lines(parts)
  {
    if |parts| > 1 {
      SplitJoin(parts[1..]);
      SplitCut(parts[0], Join(parts[1..]));
    } else {
      assert Lines(parts[1..]) == [];
    }
  }

  lemma {:induction false} SplitOneLine(line: string)
    requires OneLine(line)
    ensures Split(line) == [line]
  {
    if line != "" {
      assert line[0] in line;
      SplitOneLine(line[1..]);
      assert line == [line[0]] + line[1..];
      SplitCons(line[0], line[1..]);
    }
  }

  /** One-line parts are their own lines, and any list with as many lines as parts is made of one-line parts. */
  lemma {:induction false} LinesAreParts(parts: seq<string>)
    ensures (forall i :: 0 <= i < |parts| ==> OneLine(parts[i])) <==> |Lines(parts)| == |parts|
    ensures |Lines(parts)| == |parts| ==> Lines(parts) == parts
  {
    if parts != [] {
      LinesAreParts(parts[1..]);
      OneLineIff(parts[0]);
      assert forall i :: 0 <= i < |parts| ==> parts[i] == if i == 0 then parts[0] else parts[1..][i - 1];
      if |Lines(parts)| == |parts| {
        assert parts == [parts[0]] + parts[1..];
      }
    }
  }

  lemma OneLineIff(line: string)
    ensures OneLine(line) <==> |Split(line)| == 1
    ensures |Split(line)| == 1 ==> Split(line) == [line]
  {
    if OneLine(line) {
      SplitOneLine(line);
    } else {
      var i :| 0 <= i < |line| && line[i] == '\n';
      assert line == line[..i] + ("\n" + line[i + 1..]);
      SplitCut(line[..i], line[i + 1..]);
    }
  }

  lemma JoinGlue(c: char, lines: seq<string>)
    requires lines != []
    ensures Join(Glue(c, lines)) == [c] + Join(lines)
  {
    if c == '\n' {
      assert ([""] + lines)[1..] == lines;
    } else {
      assert ([[c] + lines[0]] + lines[1..])[1..] == lines[1..];
    }
  }

  lemma {:induction false} JoinSplit(text: string)
    ensures Join(Split(text)) == text
  {
    if text != "" {
      JoinSplit(text[1..]);
      JoinGlue(text[0], Split(text[1..]));
      SplitCons(text[0], text[1..]);
      assert text == [text[0]] + text[1..];
    }
  }

  function UpperChar(c: char): char {
    if 'a' <= c <= 'z' then (c as int - 32) as char else c
  }

  function Upper(text: string): (up: string)
    ensures |up| == |text|
    ensures forall i :: 0 <= i < |text| ==> up[i] == UpperChar(text[i])
  {
    if text == "" then "" else [UpperChar(text[0])] + Upper(text[1..])
  }

  /** Letters `a` to `z` become the same letters from `A` to `Z`; nothing else changes. */
  lemma UpperLetters(text: string, i: nat)
    requires i < |text|
    ensures |Upper(text)| == |text|
    ensures if 'a' <= text[i] <= 'z' then 'A' <= Upper(text)[i] <= 'Z' && Upper(text)[i] - 'A' == text[i] - 'a'
            else Upper(text)[i] == text[i]
  {
    assert Upper(text)[i] == UpperChar(text[i]);
  }

  /** A request as it is signed; `digest` stands for the hex digest of the body bytes. */
  datatype Message = Message(verb: string, path: string, timestamp: string, nonce: string, digest: string)

  function Layout(scheme: string, m: Message): seq<string> {
    [scheme, Upper(m.verb), m.path, m.timestamp, m.nonce, m.digest]
  }

  function Fields(m: Message): seq<string> {
    Layout(SIGNATURE_SCHEME, m)
  }

  function SigningString(m: Message): string {
    Join(Fields(m))
  }

  predicate LineFields(m: Message) {
    OneLine(m.verb) && OneLine(m.path) && OneLine(m.timestamp) && OneLine(m.nonce) && OneLine(m.digest)
  }

  /** The same request as far as a signature can tell: the verb is upper-cased before it is signed. */
  predicate SameRequest(a: Message, b: Message) {
    && Upper(a.verb) == Upper(b.verb) && a.path == b.path && a.timestamp == b.timestamp
    && a.nonce == b.nonce && a.digest == b.digest
  }

  lemma UpperOneLine(text: string)
    ensures OneLine(Upper(text)) <==> OneLine(text)
  {
    if !OneLine(text) {
      var i :| 0 <= i < |text| && text[i] == '\n';
      assert Upper(text)[i] == '\n';
    }
  }

  /** The layout consists of lines exactly when the request's fields do. */
  lemma LayoutLines(scheme: string, m: Message)
    requires OneLine(scheme)
    ensures LineFields(m) <==> |Lines(Layout(scheme, m))| == 6
    ensures LineFields(m) ==> Lines(Layout(scheme, m)) == Layout(scheme, m)
  {
    var parts := Layout(scheme, m);
    UpperOneLine(m.verb);
    LinesAreParts(parts);
    assert parts[1] == Upper(m.verb) && parts[2] == m.path && parts[3] == m.timestamp
        && parts[4] == m.nonce && parts[5] == m.digest;
    if LineFields(m) {
      forall i | 0 <= i < |parts| ensures OneLine(parts[i]) {
        assert i == 0 || i == 1 || i == 2 || i == 3 || i == 4 || i == 5;
      }
    }
  }

  /** Splitting recovers scheme, verb, path, timestamp, nonce and digest exactly when each of them is one line. */
  lemma FieldsRecoveredIff(m: Message)
    ensures Split(SigningString(m)) == [SIGNATURE_SCHEME, Upper(m.verb), m.path, m.timestamp, m.nonce, m.digest]
            <==> LineFields(m)
  {
    SplitJoin(Fields(m));
    SchemeIsALine();
    LayoutLines(SIGNATURE_SCHEME, m);
  }

  lemma SchemeIsALine()
    ensures OneLine(SIGNATURE_SCHEME)
  {
  }

  lemma SameLayout(scheme: string, a: Message, b: Message)
    ensures Layout(scheme, a) == Layout(scheme, b) <==> SameRequest(a, b)
  {
    var x, y := Layout(scheme, a), Layout(scheme, b);
    if x == y {
      assert x[1] == y[1] && x[2] == y[2] && x[3] == y[3] && x[4] == y[4] && x[5] == y[5];
    }
  }

  lemma SameStringIff(scheme: string, a: Message, b: Message)
    ensures Join(Layout(scheme, a)) == Join(Layout(scheme, b)) <==> Lines(Layout(scheme, a)) == Lines(Layout(scheme, b))
  {
    SplitJoin(Layout(scheme, a));
    SplitJoin(Layout(scheme, b));
    JoinSplit(Join(Layout(scheme, a)));
    JoinSplit(Join(Layout(scheme, b)));
  }

  /** Whatever is signed like a line-based request is that request: nothing is asked of the other one. */
  lemma LineRequestsAreUnforgeable(scheme: string, m: Message, x: Message)
    requires OneLine(scheme) && LineFields(m) && Join(Layout(scheme, x)) == Join(Layout(scheme, m))
    ensures SameRequest(x, m)
  {
    SameStringIff(scheme, x, m);
    LayoutLines(scheme, m);
    LayoutLines(scheme, x);
    SameLayout(scheme, x, m);
  }

  /** What an HTTP request line and headers guarantee: only the decoded path may contain a newline. */
  predicate HeaderFields(m: Message) {
    OneLine(m.verb) && OneLine(m.timestamp) && OneLine(m.nonce) && OneLine(m.digest)
  }

  lemma OneBetween(front: seq<string>, text: string, end: seq<string>)
    requires Lines(front) == front && Lines(end) == end
    ensures Lines(front + ([text] + end)) == front + Split(text) + end
  {
    LinesConcat(front, [text] + end);
    assert ([text] + end)[1..] == end;
    Regroup(front, Split(text), end);
  }

  lemma HeaderLines(scheme: string, m: Message)
    requires OneLine(scheme) && HeaderFields(m)
    ensures Lines(Layout(scheme, m)) == [scheme, Upper(m.verb)] + Split(m.path) + [m.timestamp, m.nonce, m.digest]
  {
    var front, end := [scheme, Upper(m.verb)], [m.timestamp, m.nonce, m.digest];
    UpperOneLine(m.verb);
    LinesAreParts(front);
    LinesAreParts(end);
    OneBetween(front, m.path, end);
    assert Layout(scheme, m) == front + ([m.path] + end);
  }

  lemma MiddleOf(front: seq<string>, middle: seq<string>, end: seq<string>, front': seq<string>, middle': seq<string>,
                 end': seq<string>)
    requires |front| == |front'| && |end| == |end'| && front + middle + end == front' + middle' + end'
    ensures front == front' && middle == middle' && end == end'
  {
    var all, n := front + middle + end, |front| + |middle|;
    assert all[..|front|] == front && all[|front|..n] == middle && all[n..] == end;
    assert |middle| == |middle'|;
    assert all[..|front|] == front' && all[|front|..n] == middle' && all[n..] == end';
  }

  /** Two such requests are signed alike only if they agree, whatever their paths contain. */
  lemma HeaderRequestsAgree(scheme: string, a: Message, b: Message)
    requires OneLine(scheme) && HeaderFields(a) && HeaderFields(b)
    requires Join(Layout(scheme, a)) == Join(Layout(scheme, b))
    ensures SameRequest(a, b)
  {
    SameStringIff(scheme, a, b);
    HeaderLines(scheme, a);
    HeaderLines(scheme, b);
    var x, y := [scheme, Upper(a.verb)], [scheme, Upper(b.verb)];
    var p, q := [a.timestamp, a.nonce, a.digest], [b.timestamp, b.nonce, b.digest];
    MiddleOf(x, Split(a.path), p, y, Split(b.path), q);
    assert x[1] == y[1] && p[0] == q[0] && p[1] == q[1] && p[2] == q[2];
    JoinSplit(a.path);
    JoinSplit(b.path);
  }

  /** Nothing signed like the first can be another request: because it has no newline, or because both have the form
      that HTTP leaves them. */
  predicate Separable(a: Message, b: Message) {
    LineFields(a) || (HeaderFields(a) && HeaderFields(b))
  }

  lemma SeparableAgree(a: Message, b: Message)
    requires Separable(a, b) && SigningString(a) == SigningString(b)
    ensures SameRequest(a, b)
  {
    SchemeIsALine();
    if LineFields(a) {
      LineRequestsAreUnforgeable(SIGNATURE_SCHEME, a, b);
    } else {
      HeaderRequestsAgree(SIGNATURE_SCHEME, a, b);
    }
  }

  // ----- Newlines move boundaries -----

  lemma LinesAround(front: seq<string>, a: string, b: string, end: seq<string>)
    ensures Lines(front + [a, b] + end) == Lines(front) + (Split(a) + Split(b)) + Lines(end)
  {
    LinesConcat(front + [a, b], end);
    LinesConcat(front, [a, b]);
    assert [a, b][1..] == [b] && [b][1..] == [];
    assert Lines([b]) == Split(b) + [] == Split(b);
  }

  /** A newline ends one part and starts the next: moving text across a boundary leaves the lines alone. */
  lemma BoundaryMoves(front: seq<string>, p: string, q: string, r: string, end: seq<string>)
    ensures Lines(front + [p + "\n" + q, r] + end) == Lines(front + [p, q + "\n" + r] + end)
  {
    LinesAround(front, p + "\n" + q, r, end);
    LinesAround(front, p, q + "\n" + r, end);
    CutText(p, q);
    CutText(q, r);
    Regroup(Split(p), Split(q), Split(r));
  }

  lemma CutText(p: string, q: string)
    ensures Split(p + "\n" + q) == Split(p) + Split(q)
  {
    SplitCut(p, q);
    assert p + "\n" + q == p + ("\n" + q);
  }

  lemma CutAtNewline(text: string) returns (p: string, q: string)
    requires !OneLine(text)
    ensures text == p + "\n" + q
  {
    var i :| 0 <= i < |text| && text[i] == '\n';
    p, q := text[..i], text[i + 1..];
  }

  lemma UpperConcat(p: string, q: string)
    ensures Upper(p + "\n" + q) == Upper(p) + "\n" + Upper(q)
  {
    var up := Upper(p + "\n" + q);
    assert |up| == |p| + 1 + |q|;
    assert forall i :: 0 <= i < |up| ==> up[i] == (Upper(p) + "\n" + Upper(q))[i];
  }

  lemma Longer(p: string, q: string)
    ensures p != p + "\n" + q
  {
    assert |p + "\n" + q| > |p|;
  }

  ghost predicate Mimics(scheme: string, x: Message, m: Message) {
    Lines(Layout(scheme, x)) == Lines(Layout(scheme, m)) && !SameRequest(x, m)
  }

  lemma VerbCollides(scheme: string, m: Message, p: string, q: string)
    requires m.verb == p + "\n" + q
    ensures Mimics(scheme, m.(verb := p, path := Upper(q) + "\n" + m.path), m)
  {
    var x := m.(verb := p, path := Upper(q) + "\n" + m.path);
    var end := [m.timestamp, m.nonce, m.digest];
    UpperConcat(p, q);
    BoundaryMoves([scheme], Upper(p), Upper(q), m.path, end);
    assert Layout(scheme, m) == [scheme] + [Upper(p) + "\n" + Upper(q), m.path] + end;
    assert Layout(scheme, x) == [scheme] + [Upper(p), Upper(q) + "\n" + m.path] + end;
    Longer(Upper(p), Upper(q));
  }

  lemma PathCollides(scheme: string, m: Message, p: string, q: string)
    requires m.path == p + "\n" + q
    ensures Mimics(scheme, m.(path := p, timestamp := q + "\n" + m.timestamp), m)
  {
    var x := m.(path := p, timestamp := q + "\n" + m.timestamp);
    var front, end := [scheme, Upper(m.verb)], [m.nonce, m.digest];
    BoundaryMoves(front, p, q, m.timestamp, end);
    assert Layout(scheme, m) == front + [p + "\n" + q, m.timestamp] + end;
    assert Layout(scheme, x) == front + [p, q + "\n" + m.timestamp] + end;
    Longer(p, q);
  }

  lemma TimestampCollides(scheme: string, m: Message, p: string, q: string)
    requires m.timestamp == p + "\n" + q
    ensures Mimics(scheme, m.(timestamp := p, nonce := q + "\n" + m.nonce), m)
  {
    var x := m.(timestamp := p, nonce := q + "\n" + m.nonce);
    var front, end := [scheme, Upper(m.verb), m.path], [m.digest];
    BoundaryMoves(front, p, q, m.nonce, end);
    assert Layout(scheme, m) == front + [p + "\n" + q, m.nonce] + end;
    assert Layout(scheme, x) == front + [p, q + "\n" + m.nonce] + end;
    Longer(p, q);
  }

  lemma NonceCollides(scheme: string, m: Message, p: string, q: string)
    requires m.nonce == p + "\n" + q
    ensures Mimics(scheme, m.(nonce := p, digest := q + "\n" + m.digest), m)
  {
    var x := m.(nonce := p, digest := q + "\n" + m.digest);
    var front := [scheme, Upper(m.verb), m.path, m.timestamp];
    BoundaryMoves(front, p, q, m.digest, []);
    assert Layout(scheme, m) == front + [p + "\n" + q, m.digest] + [];
    assert Layout(scheme, x) == front + [p, q + "\n" + m.digest] + [];
    Longer(p, q);
  }

  lemma DigestCollides(scheme: string, m: Message, p: string, q: string)
    requires m.digest == p + "\n" + q
    ensures Mimics(scheme, m.(nonce := m.nonce + "\n" + p, digest := q), m)
  {
    var x := m.(nonce := m.nonce + "\n" + p, digest := q);
    var front := [scheme, Upper(m.verb), m.path, m.timestamp];
    BoundaryMoves(front, m.nonce, p, q, []);
    assert Layout(scheme, m) == front + [m.nonce, p + "\n" + q] + [];
    assert Layout(scheme, x) == front + [m.nonce + "\n" + p, q] + [];
    Longer(m.nonce, p);
  }

  /** Any newline in any field admits a second request that is signed alike: the text after it moves into the next
      field, or, from the digest, the text before it into the nonce. */
  lemma NewlinesCollide(scheme: string, m: Message) returns (x: Message)
    requires !LineFields(m)
    ensures Mimics(scheme, x, m)
  {
    var p, q;
    if !OneLine(m.verb) {
      p, q := CutAtNewline(m.verb);
      VerbCollides(scheme, m, p, q);
      x := m.(verb := p, path := Upper(q) + "\n" + m.path);
    } else if !OneLine(m.path) {
      p, q := CutAtNewline(m.path);
      PathCollides(scheme, m, p, q);
      x := m.(path := p, timestamp := q + "\n" + m.timestamp);
    } else if !OneLine(m.timestamp) {
      p, q := CutAtNewline(m.timestamp);
      TimestampCollides(scheme, m, p, q);
      x := m.(timestamp := p, nonce := q + "\n" + m.nonce);
    } else if !OneLine(m.nonce) {
      p, q := CutAtNewline(m.nonce);
      NonceCollides(scheme, m, p, q);
      x := m.(nonce := p, digest := q + "\n" + m.digest);
    } else {
      p, q := CutAtNewline(m.digest);
      DigestCollides(scheme, m, p, q);
      x := m.(nonce := m.nonce + "\n" + p, digest := q);
    }
  }

  /** A request's signature is its own, whatever other requests are tried, exactly when none of its fields contains
      a newline. */
  lemma SignatureIsOwnIff(m: Message)
    ensures (forall x :: SigningString(x) == SigningString(m) ==> SameRequest(x, m)) <==> LineFields(m)
  {
    SchemeIsALine();
    if LineFields(m) {
      forall x | SigningString(x) == SigningString(m) ensures SameRequest(x, m) {
        LineRequestsAreUnforgeable(SIGNATURE_SCHEME, m, x);
      }
    } else {
      var x := NewlinesCollide(SIGNATURE_SCHEME, m);
      SameStringIff(SIGNATURE_SCHEME, x, m);
      assert SigningString(x) == SigningString(m);
    }
  }
}
