/** The header lines after the last chunk of a body (the trailer, section 4.1.2 of RFC 7230). */
module HttpTrailers {
  import opened Options
  import opened HttpText
  import opened HttpMachine
  import opened HttpParser
  import opened HttpRequests
  import opened HttpBodies
  import opened HttpHeaders

  /** Well-formed lines within the limit are a trailer that the parser reads through. */
  lemma LinesPass<L(!new)>(push: Sink<L>, f: Fields, log: L, hs: seq<Header>) returns (g: Fields, log': L)
    requires Joins(push) && AtLine(f) && f.flags.trailing && AllMayFollow(HeadOf(f), hs) && f.nread + |Lines(hs)| <= MAX_HEADER_SIZE
    ensures AtLine(g) && Carries(f, g, |Lines(hs)|) && Flushed(push, g, log') == Fold(push, Flushed(push, f, log), HeadersOf(hs))
    ensures Through(push, Running(f, log), Lines(hs)) && Run(push, Running(f, log), Lines(hs)) == Running(g, log')
  {
    g, log' := LinesRead(push, f, log, hs);
    ReadsMeans(push, Running(f, log), Lines(hs), g, log');
  }

  /** A chunked body with such a trailer: the callbacks see all the data in order as one piece, then each
      name and value, and then the end of the message. */
  lemma TrailerDecoded<L(!new)>(push: Sink<L>, f: Fields, log: L, chunks: seq<Chunk>, last: Chunk, hs: seq<Header>)
    returns (g: Fields)
    requires Joins(push) && f.stage == ChunkSizeStart && f.flags.chunked && f.nread == 0 && !f.flags.contentLength
    requires forall c | c in chunks :: WellFormedChunk(c) && c.data != ""
    requires WellFormedChunk(last) && last.data == ""
    requires WellFormedHeaders(hs) && |Lines(hs)| + 2 <= MAX_HEADER_SIZE
    ensures g.stage == StartReq && g.nread == |Lines(hs)| + 2
    ensures Run(push, Running(f, log), Text(chunks) + (SizeLine(last) + (Lines(hs) + "\r\n")))
            == Running(g, push(Fold(push, Delivered(push, log, chunks), HeadersOf(hs)), MessageComplete))
  {
    ChunksAndLast(push, f, log, chunks, last, Lines(hs) + "\r\n");
    var f1, log1 := AfterSize(f, 0), Delivered(push, log, chunks);
    var f2, log2 := LinesPass(push, f1, log1, hs);
    RunSplit(push, Running(f1, log1), Lines(hs), "\r\n");
    g := TrailerEnds(push, f2, log2);
  }
}
