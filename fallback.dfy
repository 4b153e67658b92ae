/**
 * The loop every public operation of the client runs: try candidate requests in order
 * and stop at the first reply the operation accepts. What counts as acceptable differs
 * between operations and between tiers of one operation, so each candidate carries
 * its own rule.
 */
module Fallback {
  import opened Wrappers
  import opened ApiModels
  import opened Decoder
  import opened Transport

  /** When a reply ends the search. */
  datatype Rule =
    | AnyOkReply        // transport ok: the parse is returned whatever it says
    | ParsedWithData    // transport ok, and the parse reports Success with non-null Data
    | NonEmptyData      // transport ok, non-empty body, Success, and Data non-null and non-empty
    | OkWithoutParsing  // transport ok: a bare success, the body is not read

  /** One request to try and the rule its reply must meet. */
  datatype Candidate = Candidate(request: Request, rule: Rule)

  /** The size `NonEmptyData` inspects, for operations whose Data is a list. */
  function ListSize<D>(items: seq<D>): nat {
    |items|
  }

  /** The size for operations whose Data is not a list; no such operation uses `NonEmptyData`. */
  function NoSize<T>(t: T): nat {
    0
  }

  /** The envelope a reply ends the search with, or None when the search goes on. */
  function Accept<T>(rule: Rule, reply: Reply, lib: JsonLib<T>, size: T -> nat): (r: Option<Envelope<T>>)
    ensures r.Some? ==> reply.ok
    ensures reply.ok && rule.AnyOkReply? ==> r == Some(ParseResponse(reply.body, lib))
    ensures rule.ParsedWithData? ==>
      (r.Some? <==> reply.ok && ParseResponse(reply.body, lib).success && ParseResponse(reply.body, lib).data.Some?)
    ensures rule.NonEmptyData? ==>
      (r.Some? <==> reply.ok && reply.body != "" && ParseResponse(reply.body, lib).success
                    && ParseResponse(reply.body, lib).data.Some? && size(ParseResponse(reply.body, lib).data.value) > 0)
    ensures r.Some? && !rule.OkWithoutParsing? ==> r == Some(ParseResponse(reply.body, lib))
    ensures reply.ok && rule.OkWithoutParsing? ==> r == Some(Envelope(true, None, None))
  {
    if !reply.ok then None
    else
      match rule
      case OkWithoutParsing => Some(Envelope(true, None, None))
      case AnyOkReply => Some(ParseResponse(reply.body, lib))
      case ParsedWithData =>
        var e := ParseResponse(reply.body, lib);
        if e.success && e.data.Some? then Some(e) else None
      case NonEmptyData =>
        if reply.body == "" then None
        else
          var e := ParseResponse(reply.body, lib);
          if e.success && e.data.Some? && size(e.data.value) > 0 then Some(e) else None
  }

  /** What trying one candidate yields. */
  function Attempt<T>(c: Candidate, send: Transport, lib: JsonLib<T>, size: T -> nat): Option<Envelope<T>> {
    Accept(c.rule, Call(send, c.request), lib, size)
  }

  /** The result of the first candidate accepted, or None when every candidate is refused. */
  function FirstAccepted<T>(cands: seq<Candidate>, send: Transport, lib: JsonLib<T>, size: T -> nat): (r: Option<Envelope<T>>)
  {
    if cands == [] then None
    else if Attempt(cands[0], send, lib, size).Some? then Attempt(cands[0], send, lib, size)
    else FirstAccepted(cands[1..], send, lib, size)
  }

  /**
   * The search ends with nothing only when every candidate is refused, and otherwise
   * with the result of the lowest-placed candidate accepted.
   */
  lemma {:induction false} FirstAcceptedIsFirst<T>(cands: seq<Candidate>, send: Transport, lib: JsonLib<T>, size: T -> nat)
    ensures FirstAccepted(cands, send, lib, size).None? <==>
      forall k | 0 <= k < |cands| :: Attempt(cands[k], send, lib, size).None?
    ensures forall k | 0 <= k < |cands| ::
      (Attempt(cands[k], send, lib, size).Some? && forall j | 0 <= j < k :: Attempt(cands[j], send, lib, size).None?)
        ==> FirstAccepted(cands, send, lib, size) == Attempt(cands[k], send, lib, size)
  {
    if cands != [] {
      FirstAcceptedIsFirst(cands[1..], send, lib, size);
      forall k | 1 <= k < |cands| ensures cands[1..][k - 1] == cands[k] { }
    }
  }

  /** Tiers: the first tier's answer stands when it has one, else the second tier is asked. */
  lemma {:induction false} FirstAcceptedAppend<T>(a: seq<Candidate>, b: seq<Candidate>, send: Transport, lib: JsonLib<T>, size: T -> nat)
    ensures FirstAccepted(a + b, send, lib, size) ==
      if FirstAccepted(a, send, lib, size).Some? then FirstAccepted(a, send, lib, size)
      else FirstAccepted(b, send, lib, size)
  {
    if a != [] {
      assert (a + b)[0] == a[0];
      assert (a + b)[1..] == a[1..] + b;
      FirstAcceptedAppend(a[1..], b, send, lib, size);
    } else {
      assert a + b == b;
    }
  }

  function Requests(cands: seq<Candidate>): (r: seq<Request>)
    ensures |r| == |cands| && forall k | 0 <= k < |cands| :: r[k] == cands[k].request
  {
    if cands == [] then [] else [cands[0].request] + Requests(cands[1..])
  }

  /**
   * The fallback loop. `tried` records the requests sent, in order: every candidate up
   * to and including the accepted one, and no later one.
   */
  method Probe<T>(cands: seq<Candidate>, send: Transport, lib: JsonLib<T>, size: T -> nat)
    returns (r: Option<Envelope<T>>, ghost tried: seq<Request>)
    ensures r == FirstAccepted(cands, send, lib, size)
    ensures |tried| <= |cands| && tried == Requests(cands[..|tried|])
    ensures r.None? ==> |tried| == |cands|
    ensures r.Some? ==> |tried| >= 1 && r == Attempt(cands[|tried| - 1], send, lib, size)
    ensures forall j | 0 <= j < |tried| - 1 :: Attempt(cands[j], send, lib, size).None?
  {
    var i := 0;
    tried := [];
    while i < |cands|
      invariant 0 <= i <= |cands|
      invariant tried == Requests(cands[..i])
      invariant forall j | 0 <= j < i :: Attempt(cands[j], send, lib, size).None?
      invariant FirstAccepted(cands, send, lib, size) == FirstAccepted(cands[i..], send, lib, size)
    {
      var reply := Call(send, cands[i].request);
      tried := tried + [cands[i].request];
      ProbeStep(cands, i, send, lib, size);
      var accepted := Accept(cands[i].rule, reply, lib, size);
      if accepted.Some? {
        r := accepted;
        return;
      }
      i := i + 1;
    }
    r := None;
  }

  /** One more candidate sent: its request joins the record, and the search goes on from it. */
  lemma ProbeStep<T>(cands: seq<Candidate>, i: nat, send: Transport, lib: JsonLib<T>, size: T -> nat)
    requires i < |cands|
    ensures Requests(cands[..i + 1]) == Requests(cands[..i]) + [cands[i].request]
    ensures FirstAccepted(cands[i..], send, lib, size) ==
      if Attempt(cands[i], send, lib, size).Some? then Attempt(cands[i], send, lib, size)
      else FirstAccepted(cands[i + 1..], send, lib, size)
  {
    assert cands[..i + 1] == cands[..i] + [cands[i]];
    assert cands[i..][1..] == cands[i + 1..];
  }

  /** Probe with the operation's failure message for the case where every candidate is refused. */
  method ProbeOr<T>(cands: seq<Candidate>, send: Transport, lib: JsonLib<T>, size: T -> nat, failure: string)
    returns (r: Envelope<T>)
    ensures r == FirstAccepted(cands, send, lib, size).GetOr(Failure(failure))
  {
    var found, _ := Probe(cands, send, lib, size);
    r := found.GetOr(Failure(failure));
  }
}
