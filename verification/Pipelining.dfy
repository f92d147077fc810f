/** Well-formed requests over a whole connection: what a client that pipelines them gets back. */
module Pipelining {
  import opened Wrappers
  import opened HttpParser
  import opened HttpResponse
  import opened Connection
  import RequestText

  predicate AllAnswerable(ms: seq<RequestText.Message>) { forall m | m in ms :: RequestText.Answerable(m) }

  /** What is found in a part of the stream is found in the stream, in front. */
  lemma PrefixFound(p: Parser, x: string)
    requires p.Waiting()
    ensures ParseAll(Repaired, p).requests <= ParseAll(Repaired, p.Plus(x)).requests
  {
    ParseAllResume(p, x);
  }

  lemma WholeFound(verb: HttpMethod, ms: seq<RequestText.Message>)
    requires AllAnswerable(ms)
    ensures ParseAll(Repaired, Fresh(verb).Plus(RequestText.PrintAll(ms))).requests == RequestText.Meanings(ms)
  {
    if ms == [] {
      NothingToParse(Fresh(verb).Plus(""));
      assert RequestText.Meanings(ms) == [];
    } else {
      RequestText.PipelineRoundTrip(Repaired, verb, ms);
    }
  }

  lemma HeardFound(verb: HttpMethod, ms: seq<RequestText.Message>, heard: string)
    requires AllAnswerable(ms) && heard <= RequestText.PrintAll(ms)
    ensures ParseAll(Repaired, Fresh(verb).Plus(heard)).requests <= RequestText.Meanings(ms)
    ensures heard == RequestText.PrintAll(ms) ==> ParseAll(Repaired, Fresh(verb).Plus(heard)).requests == RequestText.Meanings(ms)
  {
    var text := RequestText.PrintAll(ms);
    WholeFound(verb, ms);
    PrefixFound(Fresh(verb).Plus(heard), text[|heard|..]);
    PlusPlus(Fresh(verb), heard, text[|heard|..]);
    assert heard + text[|heard|..] == text;
  }

  /**
    A client sends well-formed requests one behind the other. However the network cuts them and however
    the answers go out, while no error ends the connection the requests served are the first of those
    sent, all of them once everything has arrived; and unless a write failed half-way, the bytes sent
    and kept read as exactly the files they asked for.
   */
  lemma PipelineEndToEnd(files: Files, verb: HttpMethod, rounds: seq<Round>, ms: seq<RequestText.Message>)
    requires AllAnswerable(ms)
    ensures var c := Run(Repaired, files, Start(verb), rounds);
      !c.error && c.heard <= RequestText.PrintAll(ms) ==>
        && c.served <= RequestText.Meanings(ms)
        && (c.heard == RequestText.PrintAll(ms) ==> c.served == RequestText.Meanings(ms))
        && AllServed(files, c.served)
        && (c.intact ==> ReadBodies(c.wire + c.outBuffer, Verbs(c.served)) == Some(Bodies(files, c.served)))
  {
    EndToEnd(files, verb, rounds);
    var c := Run(Repaired, files, Start(verb), rounds);
    if c.heard <= RequestText.PrintAll(ms) { HeardFound(verb, ms, c.heard); }
  }
}
