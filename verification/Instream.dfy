/** The INSTREAM framing of a file sent to the ClamAV daemon. */
module Instream {
  import opened Wrappers

  const CHUNK: nat := 65536

  /** One read of the file: up to a buffer of bytes, and whether it was the last. A file with no read left is at its end. */
  datatype Signal = More | AtEnd | Broken
  datatype Read = Read(data: string, signal: Signal)

  datatype Outcome = Complete | TooLarge | ReadFailed

  predicate Readable(pieces: seq<Read>) {
    forall r | r in pieces :: |r.data| <= CHUNK
  }

  // ---------- frames ----------

  function Prefix(n: nat): string {
    [(n / 256 / 256 / 256 % 256) as char, (n / 256 / 256 % 256) as char, (n / 256 % 256) as char, (n % 256) as char]
  }

  function PrefixValue(p: string): nat
    requires |p| == 4
  {
    ((p[0] as int * 256 + p[1] as int) * 256 + p[2] as int) * 256 + p[3] as int
  }

  function Frames(chunks: seq<string>): string {
    if chunks == [] then "" else Prefix(|chunks[0]|) + (chunks[0] + Frames(chunks[1..]))
  }

  function Concat(chunks: seq<string>): string {
    if chunks == [] then "" else chunks[0] + Concat(chunks[1..])
  }

  /** What the daemon receives: the content of the chunks before the first of length zero, provided nothing follows it. */
  function Decode(sent: string): Option<string>
    decreases |sent|
  {
    if |sent| < 4 then None
    else
      var n, rest := PrefixValue(sent[..4]), sent[4..];
      if n == 0 then (if rest == "" then Some("") else None)
      else if n > |rest| || Decode(rest[n..]).None? then None
      else Some(rest[..n] + Decode(rest[n..]).value)
  }

  // ---------- sending ----------

  /** The chunks sent of a file, when `scanned` bytes were read before. */
  function Chunks(pieces: seq<Read>, limit: nat, scanned: nat): (seq<string>, Outcome) {
    if pieces == [] then ([], Complete)
    else
      var r := pieces[0];
      if r.data != "" && scanned + |r.data| > limit then ([], TooLarge)
      else
        var chunk := if r.data == "" then [] else [r.data];
        match r.signal
        case AtEnd => (chunk, Complete)
        case Broken => (chunk, ReadFailed)
        case More =>
          var (rest, outcome) := Chunks(pieces[1..], limit, scanned + |r.data|);
          (chunk + rest, outcome)
  }

  /** Everything there is to read, up to the end or the first failure. */
  function Content(pieces: seq<Read>): string {
    if pieces == [] then "" else if pieces[0].signal == More then pieces[0].data + Content(pieces[1..]) else pieces[0].data
  }

  predicate Breaks(pieces: seq<Read>) {
    pieces != [] && (pieces[0].signal == Broken || (pieces[0].signal == More && Breaks(pieces[1..])))
  }

  lemma {:induction false} NextChunk(pieces: seq<Read>, limit: nat, i: nat, scanned: nat)
    requires i < |pieces|
    ensures var r := pieces[i];
            var chunk := if r.data == "" then [] else [r.data];
            Chunks(pieces[i..], limit, scanned)
            == if r.data != "" && scanned + |r.data| > limit then ([], TooLarge)
               else if r.signal == AtEnd then (chunk, Complete)
               else if r.signal == Broken then (chunk, ReadFailed)
               else
                 var rest := Chunks(pieces[i + 1..], limit, scanned + |r.data|);
                 (chunk + rest.0, rest.1)
  {
    assert pieces[i..][1..] == pieces[i + 1..];
  }

  lemma {:induction false} NoMoreChunks(limit: nat, scanned: nat)
    ensures Chunks([], limit, scanned) == ([], Complete)
  {
  }

  method SendFile(pieces: seq<Read>, limit: nat) returns (sent: string, outcome: Outcome)
    requires Readable(pieces)
    ensures var (chunks, o) := Chunks(pieces, limit, 0);
            outcome == o && sent == Frames(chunks) + if o == Complete then Prefix(0) else ""
  {
    hide Prefix, Chunks, Frames;
    sent := "";
    var scanned: nat := 0;
    var i: nat := 0;
    ghost var done: seq<string> := [];
    assert pieces[0..] == pieces;
    EmptyFrames();
    NoMoreChunks(limit, 0);
    assert [] + Chunks(pieces, limit, 0).0 == Chunks(pieces, limit, 0).0;
    while i < |pieces|
      invariant i <= |pieces| && sent == Frames(done)
      invariant var rest := Chunks(pieces[i..], limit, scanned);
                Chunks(pieces, limit, 0) == (done + rest.0, rest.1)
    {
      NextChunk(pieces, limit, i, scanned);
      var r := pieces[i];
      ghost var rest := Chunks(pieces[i + 1..], limit, scanned + |r.data|).0;
      assert done + [] == done && [] + rest == rest;
      i := i + 1;
      if r.data != "" {
        scanned := scanned + |r.data|;
        if scanned > limit {
          assert sent + "" == sent;
          return sent, TooLarge;
        }
        FramesAppend(done, r.data);
        sent := sent + Prefix(|r.data|);
        sent := sent + r.data;
        assert done + ([r.data] + rest) == (done + [r.data]) + rest;
        done := done + [r.data];
      }
      if r.signal == AtEnd {
        outcome := Complete;
        sent := sent + Prefix(0);
        return;
      }
      if r.signal == Broken {
        assert sent + "" == sent;
        return sent, ReadFailed;
      }
    }
    assert pieces[i..] == [] && done + [] == done;
    NoMoreChunks(limit, scanned);
    outcome := Complete;
    sent := sent + Prefix(0);
  }

  lemma {:induction false} EmptyFrames()
    ensures Frames([]) == ""
  {
  }

  lemma {:induction false} FramesAppend(chunks: seq<string>, c: string)
    ensures Frames(chunks + [c]) == (Frames(chunks) + Prefix(|c|)) + c
  {
    hide Prefix;
    if chunks == [] {
      assert [] + [c] == [c] && [c][1..] == [];
      assert "" + Prefix(|c|) == Prefix(|c|);
      assert c + "" == c;
    } else {
      var rest, p := chunks[1..], Prefix(|chunks[0]|);
      assert (chunks + [c])[1..] == rest + [c];
      FramesAppend(rest, c);
      assert p + (chunks[0] + ((Frames(rest) + Prefix(|c|)) + c)) == ((p + (chunks[0] + Frames(rest))) + Prefix(|c|)) + c;
    }
  }

  // ---------- main results ----------

  predicate GoodChunks(chunks: seq<string>) {
    forall c | c in chunks :: 0 < |c| <= CHUNK
  }

  lemma {:induction false} ChunksAreGood(pieces: seq<Read>, limit: nat, scanned: nat)
    requires Readable(pieces)
    ensures GoodChunks(Chunks(pieces, limit, scanned).0)
  {
    if pieces != [] {
      ChunksAreGood(pieces[1..], limit, scanned + |pieces[0].data|);
    }
  }

  lemma {:induction false} PrefixRoundTrip(n: nat)
    requires n < 0x1_0000_0000
    ensures |Prefix(n)| == 4 && PrefixValue(Prefix(n)) == n
  {
    var a := n / 256;
    var b := a / 256;
    var c := b / 256;
    assert n == a * 256 + n % 256 && a == b * 256 + a % 256 && b == c * 256 + b % 256 && c < 256;
  }

  lemma {:induction false} DecodeFrame(c: string, rest: string)
    requires 0 < |c| <= CHUNK
    ensures Decode(Prefix(|c|) + (c + rest)) == if Decode(rest).None? then None else Some(c + Decode(rest).value)
  {
    PrefixRoundTrip(|c|);
    hide Prefix, PrefixValue;
    var sent := Prefix(|c|) + (c + rest);
    assert sent[..4] == Prefix(|c|) && sent[4..] == c + rest;
    assert (c + rest)[..|c|] == c && (c + rest)[|c|..] == rest;
  }

  /** What a complete transmission decodes to. */
  lemma {:induction false} FramesDecode(chunks: seq<string>)
    requires GoodChunks(chunks)
    ensures Decode(Frames(chunks) + Prefix(0)) == Some(Concat(chunks))
  {
    hide Prefix, Decode;
    if chunks == [] {
      assert "" + Prefix(0) == Prefix(0);
      Terminator();
    } else {
      FramesDecode(chunks[1..]);
      var c, rest := chunks[0], Frames(chunks[1..]);
      assert (Prefix(|c|) + (c + rest)) + Prefix(0) == Prefix(|c|) + (c + (rest + Prefix(0)));
      DecodeFrame(c, rest + Prefix(0));
    }
  }

  lemma {:induction false} Terminator()
    ensures Decode(Prefix(0)) == Some("")
  {
    PrefixRoundTrip(0);
    assert Prefix(0)[..4] == Prefix(0) && Prefix(0)[4..] == "";
  }

  /** What is sent, compared with what there is to read. */
  lemma {:induction false} ChunksFollowContent(pieces: seq<Read>, limit: nat, scanned: nat)
    requires scanned <= limit
    ensures var (chunks, outcome) := Chunks(pieces, limit, scanned);
            && Concat(chunks) <= Content(pieces)
            && scanned + |Concat(chunks)| <= limit
            && (outcome == TooLarge <==> scanned + |Content(pieces)| > limit)
            && (outcome != TooLarge ==> Concat(chunks) == Content(pieces))
            && (outcome == ReadFailed <==> scanned + |Content(pieces)| <= limit && Breaks(pieces))
  {
    if pieces != [] {
      var r := pieces[0];
      if r.data == "" || scanned + |r.data| <= limit {
        if r.signal == More {
          ChunksFollowContent(pieces[1..], limit, scanned + |r.data|);
          var rest := Chunks(pieces[1..], limit, scanned + |r.data|).0;
          if r.data != "" {
            assert ([r.data] + rest)[1..] == rest;
          } else {
            assert [] + rest == rest && "" + Content(pieces[1..]) == Content(pieces[1..]);
          }
        } else if r.data != "" {
          assert [r.data][1..] == [] && r.data + "" == r.data;
        }
      }
    }
  }

  /** Main result: however the file is cut into reads, the transmission is complete if and only if reading does
      not fail and the file fits the limit; then it decodes to exactly the file. No more content than the limit
      is ever sent, every frame before the terminator has content, and an incomplete transmission has no terminator. */
  lemma {:induction false} TransmissionDecodesToFile(pieces: seq<Read>, limit: nat)
    requires Readable(pieces)
    ensures var (chunks, outcome) := Chunks(pieces, limit, 0);
            && (outcome == Complete <==> |Content(pieces)| <= limit && !Breaks(pieces))
            && (outcome == TooLarge <==> |Content(pieces)| > limit)
            && (outcome == Complete ==> Decode(Frames(chunks) + Prefix(0)) == Some(Content(pieces)))
            && |Concat(chunks)| <= limit && Concat(chunks) <= Content(pieces) && GoodChunks(chunks)
  {
    hide Prefix, Decode;
    var (chunks, outcome) := Chunks(pieces, limit, 0);
    ChunksFollowContent(pieces, limit, 0);
    ChunksAreGood(pieces, limit, 0);
    FramesDecode(chunks);
  }

  /** An incomplete transmission is never taken for a file. */
  lemma {:induction false} IncompleteIsNotDecoded(chunks: seq<string>)
    requires GoodChunks(chunks)
    ensures Decode(Frames(chunks)).None?
  {
    assert Decode("").None?;
    hide Prefix, Decode;
    if chunks == [] {
    } else {
      IncompleteIsNotDecoded(chunks[1..]);
      DecodeFrame(chunks[0], Frames(chunks[1..]));
    }
  }
}
