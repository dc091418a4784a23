/**
 Token usage read from a streamed response: `extract_usage_from_sse` and the accumulation loop of
 `upstream_stream_body` (`src/proxy/mod.rs`).

 UTF-8 validation and JSON parsing belong to libraries: `Codec` holds them as arbitrary functions on bytes.
 Everything the router does with their answers is modelled.
 */
module SseUsage {
  import opened Prelude

  newtype byte = n: int | 0 <= n < 256

  type Text = seq<byte>

  const NEWLINE: byte := 10

  /** "data: " */
  const PREFIX: Text := [100, 97, 116, 97, 58, 32]

  /** "[DONE]" */
  const DONE: Text := [91, 68, 79, 78, 69, 93]

  /** The integer members a usage object has. */
  datatype Usage = Usage(prompt: Option<nat>, completion: Option<nat>, input: Option<nat>, output: Option<nat>)

  /** What the router looks for in a JSON payload: `usage`, and `usage` inside `message`. */
  datatype Payload = Payload(usage: Option<Usage>, messageUsage: Option<Usage>)

  /** Library functions: UTF-8 validity, trimming of white space, JSON parsing. */
  datatype Codec = Codec(isUtf8: Text -> bool, trim: Text -> Text, parse: Text -> Option<Payload>)

  /** The accumulator: absent until some usage has been seen, then input and output tokens. */
  type Accum = Option<(nat, nat)>

  // ---- Running maxima ----

  function Join(a: Accum, b: Accum): Accum {
    match (a, b)
    case (None, _) => b
    case (_, None) => a
    case (Some((i, o)), Some((j, p))) => Some((Max(i, j), Max(o, p)))
  }

  /** `b` accounts for all of `a`. */
  predicate Covers(b: Accum, a: Accum) { Join(b, a) == b }

  function Tokens(v: Option<nat>): nat { if v.Some? then v.value else 0 }

  function Counted(i: Option<nat>, o: Option<nat>): Accum {
    if i == None && o == None then None else Some((Tokens(i), Tokens(o)))
  }

  /** What one payload contributes; `message` objects only carry the Anthropic members. */
  function PayloadUsage(p: Payload): Accum {
    var direct := match p.usage
      case None => None
      case Some(u) => Join(Counted(u.prompt, u.completion), Counted(u.input, u.output));
    var nested := match p.messageUsage
      case None => None
      case Some(u) => Counted(u.input, u.output);
    Join(direct, nested)
  }

  /** The input and output members of a payload, in the order in which they are read. */
  function InputMembers(p: Payload): seq<Option<nat>> {
    [if p.usage.Some? then p.usage.value.prompt else None, if p.usage.Some? then p.usage.value.input else None,
     if p.messageUsage.Some? then p.messageUsage.value.input else None]
  }

  function OutputMembers(p: Payload): seq<Option<nat>> {
    [if p.usage.Some? then p.usage.value.completion else None, if p.usage.Some? then p.usage.value.output else None,
     if p.messageUsage.Some? then p.messageUsage.value.output else None]
  }

  /** `n` is the largest of `least` and the members present. */
  ghost predicate IsLargest(n: nat, least: nat, members: seq<Option<nat>>) {
    && least <= n && (forall i :: 0 <= i < |members| && members[i].Some? ==> members[i].value <= n)
    && (n == least || exists i :: 0 <= i < |members| && members[i] == Some(n))
  }

  /** Running maxima, absent members left out, end at the largest. */
  lemma LargestOfThree(a: Option<nat>, b: Option<nat>, c: Option<nat>)
    ensures IsLargest(Max(Max(Tokens(a), Tokens(b)), Tokens(c)), 0, [a, b, c])
  {
    var n, members := Max(Max(Tokens(a), Tokens(b)), Tokens(c)), [a, b, c];
    assert n == 0 || members[0] == Some(n) || members[1] == Some(n) || members[2] == Some(n);
  }

  lemma PayloadShowsNothing(p: Payload)
    ensures PayloadUsage(p) == None <==> InputMembers(p) == [None, None, None] && OutputMembers(p) == [None, None, None]
  {
  }

  lemma PayloadMaxima(p: Payload)
    requires PayloadUsage(p).Some?
    ensures var i, o := InputMembers(p), OutputMembers(p);
      PayloadUsage(p).value ==
        (Max(Max(Tokens(i[0]), Tokens(i[1])), Tokens(i[2])), Max(Max(Tokens(o[0]), Tokens(o[1])), Tokens(o[2])))
  {
  }

  /** A payload with any of the members contributes the largest input and the largest output it names. */
  lemma PayloadUsageMeans(p: Payload)
    ensures PayloadUsage(p) == None <==> InputMembers(p) == [None, None, None] && OutputMembers(p) == [None, None, None]
    ensures PayloadUsage(p).Some? ==>
      && IsLargest(PayloadUsage(p).value.0, 0, InputMembers(p))
      && IsLargest(PayloadUsage(p).value.1, 0, OutputMembers(p))
  {
    PayloadShowsNothing(p);
    if PayloadUsage(p).Some? {
      PayloadMaxima(p);
      var i, o := InputMembers(p), OutputMembers(p);
      LargestOfThree(i[0], i[1], i[2]);
      LargestOfThree(o[0], o[1], o[2]);
    }
  }

  /** What one line contributes. */
  function LineUsage(c: Codec, raw: Text): Accum {
    var line := c.trim(raw);
    if !(PREFIX <= line) || line[|PREFIX|..] == DONE then None
    else match c.parse(line[|PREFIX|..])
      case None => None
      case Some(p) => PayloadUsage(p)
  }

  /** Only a line that starts with "data: " counts, and only if the rest is not "[DONE]" and parses. */
  lemma LineUsageMeans(c: Codec, raw: Text, payload: Text)
    ensures c.trim(raw) == [100, 97, 116, 97, 58, 32] + payload ==>
      LineUsage(c, raw) == if payload == [91, 68, 79, 78, 69, 93] || c.parse(payload) == None then None
                           else PayloadUsage(c.parse(payload).value)
    ensures !([100, 97, 116, 97, 58, 32] <= c.trim(raw)) ==> LineUsage(c, raw) == None
  {
    if c.trim(raw) == PREFIX + payload {
      assert c.trim(raw)[|PREFIX|..] == payload;
    }
  }

  // ---- Lines ----

  /** `split('\n')`: always at least one line. */
  function Lines(t: Text): (ls: seq<Text>)
    ensures ls != []
  {
    if t == [] then [[]]
    else
      var rest := Lines(t[..|t| - 1]);
      if t[|t| - 1] == NEWLINE then rest + [[]]
      else rest[|rest| - 1 := rest[|rest| - 1] + [t[|t| - 1]]]
  }

  /** The lines put back together with line feeds between them. */
  function Unlines(ls: seq<Text>): Text
    requires ls != []
  {
    if |ls| == 1 then ls[0] else Unlines(ls[..|ls| - 1]) + [10] + ls[|ls| - 1]
  }

  /** Splitting loses nothing: the lines, which hold no line feed, make up the text again. */
  lemma {:induction false} LinesMakeUpText(t: Text)
    ensures Unlines(Lines(t)) == t
    ensures forall m :: 0 <= m < |Lines(t)| ==> 10 !in Lines(t)[m]
  {
    if t != [] {
      var t', x := t[..|t| - 1], t[|t| - 1];
      var rest := Lines(t');
      LinesMakeUpText(t');
      if x == NEWLINE {
        assert (rest + [[]])[..|rest|] == rest;
      } else {
        var last := rest[|rest| - 1] + [x];
        assert rest[|rest| - 1 := last][..|rest| - 1] == rest[..|rest| - 1];
        assert |rest| > 1 ==> Unlines(rest) + [x] == Unlines(rest[..|rest| - 1]) + [10] + last;
      }
      assert t == t' + [x];
    }
  }

  function JoinAll(c: Codec, ls: seq<Text>): Accum {
    if ls == [] then None else Join(JoinAll(c, ls[..|ls| - 1]), LineUsage(c, ls[|ls| - 1]))
  }

  /** The usage of a whole text, in one pass. */
  function PassUsage(c: Codec, t: Text): Accum { JoinAll(c, Lines(t)) }

  /** One call: text that is not UTF-8 contributes nothing. */
  function Absorb(c: Codec, a: Accum, t: Text): Accum {
    if c.isUtf8(t) then Join(a, PassUsage(c, t)) else a
  }

  // ---- The router's two procedures ----

  class Cell {
    var value: Accum

    constructor ()
      ensures value == None
    {
      value := None;
    }
  }

  /** The accumulator the local variables of the loop stand for. */
  function Known(found: bool, inT: nat, outT: nat): Accum { if found then Some((inT, outT)) else None }

  lemma JoinAssociative(a: Accum, b: Accum, d: Accum)
    ensures Join(Join(a, b), d) == Join(a, Join(b, d))
  {
  }

  lemma JoinAllStep(c: Codec, a: Accum, ls: seq<Text>, n: nat)
    requires n < |ls|
    ensures Join(a, JoinAll(c, ls[..n + 1])) == Join(Join(a, JoinAll(c, ls[..n])), LineUsage(c, ls[n]))
  {
    assert ls[..n + 1][..n] == ls[..n];
    JoinAssociative(a, JoinAll(c, ls[..n]), LineUsage(c, ls[n]));
  }

  /** One pair of members of a usage object raises the maxima. */
  method Raise(i: Option<nat>, o: Option<nat>, found0: bool, in0: nat, out0: nat)
      returns (found: bool, inT: nat, outT: nat)
    requires !found0 ==> in0 == out0 == 0
    ensures !found ==> inT == outT == 0
    ensures Known(found, inT, outT) == Join(Known(found0, in0, out0), Counted(i, o))
  {
    found, inT, outT := found0, in0, out0;
    if i.Some? {
      inT, found := Max(inT, i.value), true;
    }
    if o.Some? {
      outT, found := Max(outT, o.value), true;
    }
  }

  /** The loop body on one parsed payload: OpenAI members, Anthropic members, Anthropic `message` members. */
  method RaiseTo(p: Payload, found0: bool, in0: nat, out0: nat) returns (found: bool, inT: nat, outT: nat)
    requires !found0 ==> in0 == out0 == 0
    ensures !found ==> inT == outT == 0
    ensures Known(found, inT, outT) == Join(Known(found0, in0, out0), PayloadUsage(p))
    ensures IsLargest(inT, in0, InputMembers(p)) && IsLargest(outT, out0, OutputMembers(p))
    ensures found <==>
      found0 || InputMembers(p) != [None, None, None] || OutputMembers(p) != [None, None, None]
  {
    PayloadUsageMeans(p);
    found, inT, outT := found0, in0, out0;
    ghost var start := Known(found0, in0, out0);
    if p.usage.Some? {
      var u := p.usage.value;
      found, inT, outT := Raise(u.prompt, u.completion, found, inT, outT);
      found, inT, outT := Raise(u.input, u.output, found, inT, outT);
      JoinAssociative(start, Counted(u.prompt, u.completion), Counted(u.input, u.output));
    }
    ghost var direct := PayloadUsage(p.(messageUsage := None));
    assert Known(found, inT, outT) == Join(start, direct);
    if p.messageUsage.Some? {
      var u := p.messageUsage.value;
      found, inT, outT := Raise(u.input, u.output, found, inT, outT);
      JoinAssociative(start, direct, Counted(u.input, u.output));
    }
  }

  method ExtractUsageFromSse(c: Codec, chunk: Text, accum: Cell)
    modifies accum
    ensures accum.value == Absorb(c, old(accum.value), chunk)
    ensures !c.isUtf8(chunk) ==> accum.value == old(accum.value)
  {
    if !c.isUtf8(chunk) {
      return;
    }
    var (inT, outT) := if accum.value.Some? then accum.value.value else (0, 0);
    var found := accum.value.Some?;
    var lines := Lines(chunk);
    for n := 0 to |lines|
      invariant accum.value == old(accum.value) && (!found ==> inT == outT == 0)
      invariant Known(found, inT, outT) == Join(accum.value, JoinAll(c, lines[..n]))
    {
      JoinAllStep(c, accum.value, lines, n);
      var line := c.trim(lines[n]);
      if PREFIX <= line && line[|PREFIX|..] != DONE {
        var parsed := c.parse(line[|PREFIX|..]);
        if parsed.Some? {
          found, inT, outT := RaiseTo(parsed.value, found, inT, outT);
        }
      }
    }
    assert lines[..|lines|] == lines;
    if found {
      accum.value := Some((inT, outT));
    }
  }

  function Concat(chunks: seq<Text>): Text {
    if chunks == [] then [] else Concat(chunks[..|chunks| - 1]) + chunks[|chunks| - 1]
  }

  function AbsorbAll(c: Codec, chunks: seq<Text>): Accum {
    if chunks == [] then None else Absorb(c, AbsorbAll(c, chunks[..|chunks| - 1]), chunks[|chunks| - 1])
  }

  /**
   The body stream: each chunk is looked at as it passes and appended to a buffer, which gets one full
   pass at the normal end. A transport error (`None`) ends the stream without that pass.
   */
  method StreamBody(c: Codec, stream: seq<Option<Text>>, accum: Cell) returns (forwarded: seq<Text>)
    requires accum.value == None
    modifies accum
    ensures |forwarded| <= |stream| && forall n :: 0 <= n < |forwarded| ==> stream[n] == Some(forwarded[n])
    ensures |forwarded| < |stream| ==> stream[|forwarded|] == None && accum.value == AbsorbAll(c, forwarded)
    ensures |forwarded| == |stream| ==> accum.value == Absorb(c, AbsorbAll(c, forwarded), Concat(forwarded))
  {
    var buf: Text := [];
    forwarded := [];
    for n := 0 to |stream|
      invariant |forwarded| == n && forall m :: 0 <= m < n ==> stream[m] == Some(forwarded[m])
      invariant buf == Concat(forwarded) && accum.value == AbsorbAll(c, forwarded)
    {
      if stream[n] == None {
        return;
      }
      var chunk := stream[n].value;
      ExtractUsageFromSse(c, chunk, accum);
      buf := buf + chunk;
      forwarded := forwarded + [chunk];
      assert forwarded[..n] + [chunk] == forwarded;
    }
    ExtractUsageFromSse(c, buf, accum);
  }

  // ---- Independence of the chunking ----

  /** The accumulator after a normal end of stream. */
  function FinalUsage(c: Codec, chunks: seq<Text>): Accum { Absorb(c, AbsorbAll(c, chunks), Concat(chunks)) }

  lemma {:induction false} AbsorbAllCovered(c: Codec, chunks: seq<Text>, bound: Accum)
    ensures Covers(bound, AbsorbAll(c, chunks)) <==>
            forall n :: 0 <= n < |chunks| && c.isUtf8(chunks[n]) ==> Covers(bound, PassUsage(c, chunks[n]))
  {
    if chunks != [] {
      var m := |chunks| - 1;
      AbsorbAllCovered(c, chunks[..m], bound);
      assert forall n :: 0 <= n < m ==> chunks[..m][n] == chunks[n];
      assert c.isUtf8(chunks[m]) ==>
        (Covers(bound, AbsorbAll(c, chunks)) <==>
         Covers(bound, AbsorbAll(c, chunks[..m])) && Covers(bound, PassUsage(c, chunks[m])));
    }
  }

  /**
   For any cut of a valid body, the streamed result is that of one pass over the whole body exactly when no
   chunk, read by itself, shows more usage than the body does.
   */
  lemma {:induction false} StreamingIsOnePassIff(c: Codec, chunks: seq<Text>)
    requires c.isUtf8(Concat(chunks))
    ensures FinalUsage(c, chunks) == PassUsage(c, Concat(chunks)) <==>
            forall n :: 0 <= n < |chunks| && c.isUtf8(chunks[n]) ==>
              Covers(PassUsage(c, Concat(chunks)), PassUsage(c, chunks[n]))
  {
    AbsorbAllCovered(c, chunks, PassUsage(c, Concat(chunks)));
  }

  // ---- Lines of a chunk are pieces of lines of the body ----

  /** The lines of `t` with one more character. */
  lemma LinesAppend(t: Text, x: byte)
    ensures var ls := Lines(t);
      Lines(t + [x]) == if x == NEWLINE then ls + [[]] else ls[|ls| - 1 := ls[|ls| - 1] + [x]]
  {
    assert (t + [x])[..|t|] == t;
  }

  /** The lines of `la` followed by those of `lb`, the cut line made whole. */
  function Stitch(la: seq<Text>, lb: seq<Text>): (ls: seq<Text>)
    requires la != [] && lb != []
    ensures |ls| == |la| + |lb| - 1
  {
    la[..|la| - 1] + [la[|la| - 1] + lb[0]] + lb[1..]
  }

  lemma StitchNothing(la: seq<Text>)
    requires la != []
    ensures Stitch(la, [[]]) == la
  {
    assert la[|la| - 1] + [] == la[|la| - 1];
  }

  lemma StitchNewLine(la: seq<Text>, lb: seq<Text>)
    requires la != [] && lb != []
    ensures Stitch(la, lb + [[]]) == Stitch(la, lb) + [[]]
  {
  }

  lemma StitchCharacter(la: seq<Text>, lb: seq<Text>, x: byte)
    requires la != [] && lb != []
    ensures var ls := Stitch(la, lb);
      Stitch(la, lb[|lb| - 1 := lb[|lb| - 1] + [x]]) == ls[|ls| - 1 := ls[|ls| - 1] + [x]]
  {
    if |lb| == 1 {
      assert (la[|la| - 1] + lb[0]) + [x] == la[|la| - 1] + (lb[0] + [x]);
    }
  }

  /** Cutting a text cuts at most one line, and every other line stays whole. */
  lemma {:induction false} LinesConcat(a: Text, b: Text)
    ensures Lines(a + b) == Stitch(Lines(a), Lines(b))
  {
    if b == [] {
      assert a + b == a;
      StitchNothing(Lines(a));
    } else {
      var b', x := b[..|b| - 1], b[|b| - 1];
      LinesConcat(a, b');
      assert b == b' + [x] && a + b == a + b' + [x];
      StitchAppend(a, b', x);
    }
  }

  lemma StitchAppend(a: Text, b: Text, x: byte)
    requires Lines(a + b) == Stitch(Lines(a), Lines(b))
    ensures Lines(a + b + [x]) == Stitch(Lines(a), Lines(b + [x]))
  {
    LinesAppend(b, x);
    LinesAppend(a + b, x);
    if x == NEWLINE {
      StitchNewLine(Lines(a), Lines(b));
    } else {
      StitchCharacter(Lines(a), Lines(b), x);
    }
  }

  ghost predicate IsPiece(f: Text, line: Text) {
    exists pre: Text, post: Text :: line == pre + f + post
  }

  /** `f` is a piece of one of the lines. */
  ghost predicate IsPieceOf(f: Text, ls: seq<Text>) {
    exists m :: 0 <= m < |ls| && IsPiece(f, ls[m])
  }

  lemma PieceExtends(f: Text, line: Text, before: Text, after: Text)
    requires IsPiece(f, line)
    ensures IsPiece(f, before + line + after)
  {
    var pre: Text, post: Text :| line == pre + f + post;
    assert before + line + after == (before + pre) + f + (post + after);
  }

  lemma StitchKeepsPieces(la: seq<Text>, lb: seq<Text>, f: Text)
    requires la != [] && lb != [] && (IsPieceOf(f, la) || IsPieceOf(f, lb))
    ensures IsPieceOf(f, Stitch(la, lb))
  {
    var ls, k := Stitch(la, lb), |la| - 1;
    if IsPieceOf(f, la) {
      var m :| 0 <= m < |la| && IsPiece(f, la[m]);
      PieceExtends(f, la[m], [], lb[0]);
      assert [] + la[m] + lb[0] == la[m] + lb[0];
      assert ls[m] == if m == k then la[m] + lb[0] else la[m];
    } else {
      var m :| 0 <= m < |lb| && IsPiece(f, lb[m]);
      PieceExtends(f, lb[m], la[k], []);
      assert la[k] + lb[m] + [] == la[k] + lb[m];
      assert ls[k + m] == if m == 0 then la[k] + lb[m] else lb[m];
    }
  }

  lemma ChunkLinesArePieces(pre: Text, chunk: Text, post: Text, m: nat)
    requires m < |Lines(chunk)|
    ensures IsPieceOf(Lines(chunk)[m], Lines(pre + chunk + post))
  {
    var f := Lines(chunk)[m];
    assert f == [] + f + [];
    assert IsPiece(f, Lines(chunk)[m]);
    LinesConcat(pre, chunk);
    StitchKeepsPieces(Lines(pre), Lines(chunk), f);
    LinesConcat(pre + chunk, post);
    StitchKeepsPieces(Lines(pre + chunk), Lines(post), f);
  }

  lemma {:induction false} ConcatAround(chunks: seq<Text>, n: nat) returns (post: Text)
    requires n < |chunks|
    ensures Concat(chunks) == Concat(chunks[..n]) + chunks[n] + post
  {
    var m := |chunks| - 1;
    if n == m {
      post := [];
    } else {
      var mid := ConcatAround(chunks[..m], n);
      post := mid + chunks[m];
      assert chunks[..m][..n] == chunks[..n];
    }
  }

  // ---- When every cut gives the same result ----

  /** Newlines are one-byte characters: the lines of valid UTF-8 are valid UTF-8. */
  ghost predicate ValidByLines(c: Codec) {
    forall t: Text, m :: c.isUtf8(t) && 0 <= m < |Lines(t)| ==> c.isUtf8(Lines(t)[m])
  }

  /** No piece of a line, read as a line of its own, shows usage beyond that of the whole text. */
  ghost predicate PiecesShowNoMore(c: Codec, t: Text) {
    forall f: Text :: IsPieceOf(f, Lines(t)) && c.isUtf8(f) ==> Covers(PassUsage(c, t), LineUsage(c, f))
  }

  lemma {:induction false} CoversAllLines(c: Codec, ls: seq<Text>, bound: Accum)
    requires forall m :: 0 <= m < |ls| ==> Covers(bound, LineUsage(c, ls[m]))
    ensures Covers(bound, JoinAll(c, ls))
  {
    if ls != [] {
      CoversAllLines(c, ls[..|ls| - 1], bound);
    }
  }

  lemma AnyCutIsOnePass(c: Codec, chunks: seq<Text>)
    requires c.isUtf8(Concat(chunks)) && ValidByLines(c) && PiecesShowNoMore(c, Concat(chunks))
    ensures FinalUsage(c, chunks) == PassUsage(c, Concat(chunks))
  {
    var body := Concat(chunks);
    forall n | 0 <= n < |chunks| && c.isUtf8(chunks[n])
      ensures Covers(PassUsage(c, body), PassUsage(c, chunks[n]))
    {
      var post := ConcatAround(chunks, n);
      var ls := Lines(chunks[n]);
      forall m | 0 <= m < |ls| ensures Covers(PassUsage(c, body), LineUsage(c, ls[m])) {
        ChunkLinesArePieces(Concat(chunks[..n]), chunks[n], post, m);
      }
      CoversAllLines(c, ls, PassUsage(c, body));
    }
    StreamingIsOnePassIff(c, chunks);
  }

  lemma {:induction false} LinesHaveNoNewline(t: Text, m: nat)
    requires m < |Lines(t)|
    ensures NEWLINE !in Lines(t)[m]
  {
    if t != [] {
      var rest := Lines(t[..|t| - 1]);
      if m < |rest| {
        LinesHaveNoNewline(t[..|t| - 1], m);
      }
    }
  }

  lemma {:induction false} OneLine(t: Text)
    requires NEWLINE !in t
    ensures Lines(t) == [t]
  {
    if t != [] {
      var t', x := t[..|t| - 1], t[|t| - 1];
      OneLine(t');
      assert x in t && t == t' + [x];
    }
  }

  lemma ConcatThree(a: Text, b: Text, d: Text)
    ensures Concat([a, b, d]) == a + b + d
  {
    assert [a, b, d][..2] == [a, b] && [a, b][..1] == [a] && [a][..0] == [];
    assert Concat([a]) == [] + a == a;
    assert Concat([a, b]) == a + b;
  }

  lemma LoneLineUsage(c: Codec, f: Text)
    requires NEWLINE !in f
    ensures PassUsage(c, f) == LineUsage(c, f)
  {
    OneLine(f);
    assert [f][..0] == [];
    assert JoinAll(c, [f]) == Join(JoinAll(c, []), LineUsage(c, f));
  }

  /** The text between the line breaks before and after line `m`. */
  lemma {:induction false} LineInContext(t: Text, m: nat) returns (before: Text, after: Text)
    requires m < |Lines(t)|
    ensures t == before + Lines(t)[m] + after
    ensures m == |Lines(t)| - 1 ==> after == []
  {
    if t == [] {
      before, after := [], [];
    } else {
      var t', x := t[..|t| - 1], t[|t| - 1];
      var rest := Lines(t');
      if m < |rest| {
        before, after := LineInContext(t', m);
        if x == NEWLINE || m < |rest| - 1 {
          after := after + [x];
        }
      } else {
        before, after := t, [];
      }
    }
  }

  lemma PieceIsAChunk(c: Codec, t: Text, f: Text) returns (chunks: seq<Text>)
    requires IsPieceOf(f, Lines(t))
    ensures chunks != [] && |chunks| == 3 && chunks[1] == f && Concat(chunks) == t
    ensures PassUsage(c, f) == LineUsage(c, f)
  {
    var m :| 0 <= m < |Lines(t)| && IsPiece(f, Lines(t)[m]);
    var pre: Text, post: Text :| Lines(t)[m] == pre + f + post;
    var before, after := LineInContext(t, m);
    chunks := [before + pre, f, post + after];
    ConcatThree(before + pre, f, post + after);
    assert t == (before + pre) + f + (post + after);
    LinesHaveNoNewline(t, m);
    assert forall x :: x in f ==> x in Lines(t)[m];
    LoneLineUsage(c, f);
  }

  /** Every way of cutting the body into chunks gives the usage of one pass over it. */
  ghost predicate CutsDoNotMatter(c: Codec, body: Text) {
    forall chunks: seq<Text> :: Concat(chunks) == body ==> FinalUsage(c, chunks) == PassUsage(c, body)
  }

  /**
   The final usage of a valid body is independent of its chunking, cuts inside lines and characters included,
   exactly when no piece of a line shows usage beyond that of the body.
   */
  lemma CutsDoNotMatterIff(c: Codec, body: Text)
    requires c.isUtf8(body) && ValidByLines(c)
    ensures CutsDoNotMatter(c, body) <==> PiecesShowNoMore(c, body)
  {
    if PiecesShowNoMore(c, body) {
      forall chunks: seq<Text> | Concat(chunks) == body ensures FinalUsage(c, chunks) == PassUsage(c, body) {
        AnyCutIsOnePass(c, chunks);
      }
    }
    if CutsDoNotMatter(c, body) {
      forall f: Text | IsPieceOf(f, Lines(body)) && c.isUtf8(f)
        ensures Covers(PassUsage(c, body), LineUsage(c, f))
      {
        var chunks := PieceIsAChunk(c, body, f);
        StreamingIsOnePassIff(c, chunks);
        assert c.isUtf8(chunks[1]);
      }
    }
  }
}
