/** The fallback chain: candidates are fetched one after another, in order,
    until one answers 200 with usable content. */
module Resolver {
  import opened Wrappers
  import opened Sources

  /** The outcome of one page fetch: a status code and a body, or a rejected
      request (timeout, network failure), which the fetch does not catch. */
  datatype Response = Response(status: int, body: string) | Thrown

  /** What a site handler makes of a page. */
  datatype Extraction = TextResult(content: string) | ImageResult(content: string) | ErrorResult

  /** What the chain ends with: the first usable extraction with the link it
      came from; `GaveUp` for the explicit `{type: 'error'}` given when the last
      candidate answered 200 but could not be read; `NoResult` for falling off
      the end of the loop (`undefined`); `Aborted` when an exception escaped. */
  datatype Resolution =
    | Resolved(url: string, result: Extraction)
    | GaveUp
    | NoResult
    | Aborted

  /** The chain's result together with the links it fetched, in order. */
  datatype Chain = Chain(result: Resolution, fetched: seq<string>)

  /** The network and the handlers, as abstract functions: `fetch` is the
      GET of a link, `extract` runs a handler on a page body. */
  datatype Web = Web(fetch: string -> Response, extract: (Handler, string) -> Extraction)

  /** What one iteration of the loop makes of one candidate. */
  datatype Attempt = Threw | Skipped | Extracted(e: Extraction)

  /** One candidate: fetch it; a non-200 answer is skipped; a 200 page goes
      to the candidate's handler. Calling a missing handler (`undefined`) is a
      TypeError, so an unregistered link throws. */
  function Try(c: Url, web: Web): Attempt
  {
    match web.fetch(c.href)
    case Thrown => Threw
    case Response(status, body) =>
      if status != 200 then Skipped
      else match Lookup(c)
        case None => Threw
        case Some(h) => Extracted(web.extract(h, body))
  }

  function Hrefs(cands: seq<Url>): (hs: seq<string>)
    ensures |hs| == |cands|
    ensures forall i :: 0 <= i < |cands| ==> hs[i] == cands[i].href
  {
    if cands == [] then [] else [cands[0].href] + Hrefs(cands[1..])
  }

  /** The reference definition of the chain, one candidate at a time. */
  function Resolve(cands: seq<Url>, web: Web): Chain
    decreases |cands|
  {
    if cands == [] then Chain(NoResult, [])
    else
      var c := cands[0];
      var rest := Resolve(cands[1..], web);
      match Try(c, web)
      case Threw => Chain(Aborted, [c.href])
      case Skipped => Chain(rest.result, [c.href] + rest.fetched)
      case Extracted(e) =>
        if !e.ErrorResult? then Chain(Resolved(c.href, e), [c.href])
        else if |cands| == 1 then Chain(GaveUp, [c.href])
        else Chain(rest.result, [c.href] + rest.fetched)
  }

  /** A candidate that ends the chain: it threw, or it answered 200 and its
      handler produced text or an image. */
  predicate Decisive(c: Url, web: Web)
  {
    Try(c, web).Threw? || (Try(c, web).Extracted? && !Try(c, web).e.ErrorResult?)
  }

  /** How a decisive candidate ends the chain. */
  function Verdict(c: Url, web: Web): Resolution
  {
    if Try(c, web).Extracted? then Resolved(c.href, Try(c, web).e) else Aborted
  }

  /** The chain stops at the first decisive candidate: it returns that
      candidate's extraction tagged with its link (or aborts if it threw),
      having fetched exactly the candidates up to it and none after. */
  lemma {:induction false} StopsAtFirstDecisive(cands: seq<Url>, web: Web, i: nat)
    requires i < |cands| && Decisive(cands[i], web)
    requires forall j :: 0 <= j < i ==> !Decisive(cands[j], web)
    ensures Resolve(cands, web) == Chain(Verdict(cands[i], web), Hrefs(cands[..i + 1]))
  {
    if i == 0 {
      assert cands[..1] == [cands[0]];
    } else {
      assert !Decisive(cands[0], web);
      StopsAtFirstDecisive(cands[1..], web, i - 1);
      assert cands[1..][..i] == cands[1..i + 1];
      assert Hrefs(cands[..i + 1]) == [cands[0].href] + Hrefs(cands[1..i + 1]);
    }
  }

  /** Without a decisive candidate every candidate is fetched, and the chain
      gives up explicitly only when the LAST candidate reached its handler
      (answered 200); otherwise, and for an empty list, it returns nothing. */
  lemma {:induction false} NoDecisiveCandidate(cands: seq<Url>, web: Web)
    requires forall j :: 0 <= j < |cands| ==> !Decisive(cands[j], web)
    ensures Resolve(cands, web).fetched == Hrefs(cands)
    ensures Resolve(cands, web).result ==
      if cands != [] && Try(cands[|cands| - 1], web).Extracted? then GaveUp else NoResult
  {
    if cands != [] {
      assert !Decisive(cands[0], web);
      NoDecisiveCandidate(cands[1..], web);
    }
  }

  /** A registered candidate answering 200 is read by its own handler. */
  lemma TryRegistered(c: Url, web: Web)
    requires Known(c)
    requires web.fetch(c.href).Response? && web.fetch(c.href).status == 200
    ensures Try(c, web) == Extracted(web.extract(Lookup(c).value, web.fetch(c.href).body))
  {
  }

  /** The chain after `fetched` was already fetched. */
  function After(fetched: seq<string>, chain: Chain): Chain
  {
    Chain(chain.result, fetched + chain.fetched)
  }

  /** The loop moves on past candidate `i` when it was skipped, or when its
      handler failed and it is not the last one. */
  predicate MovesOn(cands: seq<Url>, web: Web, i: nat)
    requires i < |cands|
  {
    Try(cands[i], web).Skipped? || (Try(cands[i], web) == Extracted(ErrorResult) && i < |cands| - 1)
  }

  /** Moving on past candidate `i` leaves the chain's outcome as it was. */
  lemma MoveOn(cands: seq<Url>, web: Web, i: nat)
    requires i < |cands| && MovesOn(cands, web, i)
    ensures After(Hrefs(cands[..i]), Resolve(cands[i..], web))
         == After(Hrefs(cands[..i + 1]), Resolve(cands[i + 1..], web))
  {
    assert cands[i..][0] == cands[i];
    assert cands[i..][1..] == cands[i + 1..];
    HrefsSnoc(cands, i);
    var rest := Resolve(cands[i + 1..], web);
    assert Resolve(cands[i..], web) == Chain(rest.result, [cands[i].href] + rest.fetched);
    assert Hrefs(cands[..i]) + ([cands[i].href] + rest.fetched)
        == (Hrefs(cands[..i]) + [cands[i].href]) + rest.fetched;
  }

  /** Where the loop returns at candidate `i`, the chain ends there. */
  lemma StopAt(cands: seq<Url>, web: Web, i: nat)
    requires i < |cands| && !MovesOn(cands, web, i)
    ensures Resolve(cands[i..], web) ==
      Chain(match Try(cands[i], web)
            case Threw => Aborted
            case Skipped => Aborted
            case Extracted(e) => if e.ErrorResult? then GaveUp else Resolved(cands[i].href, e),
            [cands[i].href])
  {
    assert cands[i..][0] == cands[i];
    assert cands[i..][1..] == cands[i + 1..];
  }

  lemma HrefsSnoc(cands: seq<Url>, i: nat)
    requires i < |cands|
    ensures Hrefs(cands[..i + 1]) == Hrefs(cands[..i]) + [cands[i].href]
  {
    assert Hrefs(cands[..i + 1])[..i] == Hrefs(cands[..i]);
  }

  /** The body of one iteration: fetch the candidate, skip a non-200 answer,
      call its handler on the page. */
  method Visit(c: Url, web: Web) returns (a: Attempt)
    ensures a == Try(c, web)
    ensures a.Extracted? ==> Known(c)
  {
    var response := web.fetch(c.href);
    if response.Thrown? {
      return Threw;
    }
    if response.status != 200 {
      return Skipped;
    }
    var handler := Lookup(c);
    if handler.None? {
      return Threw;
    }
    a := Extracted(web.extract(handler.value, response.body));
  }

  /** `goThroughURLs`: the index loop with `continue` and early returns. */
  method GoThroughUrls(cands: seq<Url>, web: Web) returns (r: Resolution, fetched: seq<string>)
    ensures Chain(r, fetched) == Resolve(cands, web)
  {
    fetched := [];
    var i := 0;
    while i < |cands|
      invariant 0 <= i <= |cands|
      invariant fetched == Hrefs(cands[..i])
      invariant Resolve(cands, web) == After(fetched, Resolve(cands[i..], web))
    {
      var c := cands[i];
      HrefsSnoc(cands, i);
      var a := Visit(c, web);
      fetched := fetched + [c.href];
      match a
      case Threw =>
        StopAt(cands, web, i);
        return Aborted, fetched;
      case Skipped =>
        MoveOn(cands, web, i);
        i := i + 1;
      case Extracted(e) =>
        if !e.ErrorResult? {
          StopAt(cands, web, i);
          return Resolved(c.href, e), fetched;
        }
        if i == |cands| - 1 {
          StopAt(cands, web, i);
          return GaveUp, fetched;
        }
        MoveOn(cands, web, i);
        i := i + 1;
    }
    assert cands[i..] == [];
    r := NoResult;
  }
}
