/**
 * Accepting a brief from the designer pool (components/pool/brief-card.tsx):
 * a transaction that reads the brief document and claims it only while it is
 * open, the card state around it, and the card's button and tag rendering.
 * The transaction runs as one atomic step; Firestore guarantees that
 * concurrent transactions behave as some such sequence.
 */
module BriefPool {
  import opened ChatTypes
  import opened JsString

  /** The instant `new Date()` gives; only passed through. */
  datatype Timestamp = Timestamp(millis: int)

  /** A field value of a brief document. */
  datatype Value = Text(s: string) | Texts(items: seq<string>) | Time(at: Timestamp)

  /** A brief document: its fields by name. */
  type BriefRecord = map<string, Value>

  const Open: string := "open"
  const Assigned: string := "assigned"
  const FakeDesignerId: string := "designer-123"
  const MissingBriefError: string := "Brief does not exist!"
  const AlreadyAcceptedError: string := "This brief has already been accepted by another designer."
  const FallbackError: string := "Failed to accept brief"

  /** `data.status === "open"` */
  predicate IsOpen(doc: BriefRecord) {
    "status" in doc && doc["status"] == Text(Open)
  }

  /** The result of the transaction: the documents afterwards and the error it threw, if any. */
  datatype TxResult = TxResult(docs: map<string, BriefRecord>, error: Option<string>)

  /** The transaction of `handleAccept`: read the brief, refuse unless it is open, then claim it. */
  function AcceptTx(docs: map<string, BriefRecord>, id: string, now: Timestamp): (r: TxResult)
    ensures r.error.None? <==> id in docs && IsOpen(docs[id])
    ensures r.error.Some? ==> r.docs == docs
    ensures r.docs.Keys == docs.Keys
  {
    if id !in docs then TxResult(docs, Some(MissingBriefError))
    else if !IsOpen(docs[id]) then TxResult(docs, Some(AlreadyAcceptedError))
    else
      var claimed := docs[id]["status" := Text(Assigned)]["designerId" := Text(FakeDesignerId)]["assignedAt" := Time(now)];
      TxResult(docs[id := claimed], None)
  }

  /** What the card shows after a failure: the message, or the fallback when it is empty. */
  function ShownError(message: string): (r: string)
    ensures r != []
    ensures message != [] ==> r == message
  {
    if message == [] then FallbackError else message
  }

  /** The `briefs` collection. */
  class BriefStore {
    var docs: map<string, BriefRecord>

    constructor(initial: map<string, BriefRecord>)
      ensures docs == initial
    {
      docs := initial;
    }

    /** `runTransaction` with the accept callback, as one atomic step. */
    method RunAccept(id: string, now: Timestamp) returns (error: Option<string>)
      modifies this
      ensures TxResult(docs, error) == AcceptTx(old(docs), id, now)
    {
      if id !in docs {
        return Some(MissingBriefError);
      }
      var data := docs[id];
      if !("status" in data && data["status"] == Text(Open)) {
        return Some(AlreadyAcceptedError);
      }
      docs := docs[id := data["status" := Text(Assigned)]["designerId" := Text(FakeDesignerId)]["assignedAt" := Time(now)]];
      error := None;
    }
  }

  /** One card of the pool: the brief it shows and its own `loading` / `error` state. */
  class BriefCard {
    const briefId: string
    var loading: bool
    var error: Option<string>

    constructor(id: string)
      ensures briefId == id && !loading && error.None?
    {
      briefId := id;
      loading := false;
      error := None;
    }

    /**
     * `handleAccept`. `fault` is an error of the transaction machinery itself
     * (with its message, possibly empty), in which case nothing is written.
     */
    method HandleAccept(store: BriefStore, now: Timestamp, fault: Option<string>)
      modifies this, store
      ensures !loading
      ensures fault.Some? ==> store.docs == old(store.docs) && error == Some(ShownError(fault.value))
      ensures fault.None? ==> store.docs == AcceptTx(old(store.docs), briefId, now).docs
      ensures fault.None? ==> error == (match AcceptTx(old(store.docs), briefId, now).error
                                        case None => None
                                        case Some(m) => Some(ShownError(m)))
    {
      loading := true;
      error := None;
      var thrown: Option<string>;
      if fault.Some? {
        thrown := fault;
      } else {
        thrown := store.RunAccept(briefId, now);
      }
      if thrown.Some? {
        error := Some(if thrown.value == [] then FallbackError else thrown.value);
      }
      loading := false;
    }
  }

  // ---- properties of the transaction ----

  /** A missing or no longer open brief is refused with its message, and nothing is written. */
  lemma AcceptRefuses(docs: map<string, BriefRecord>, id: string, now: Timestamp)
    ensures id !in docs ==> AcceptTx(docs, id, now) == TxResult(docs, Some(MissingBriefError))
    ensures id in docs && !IsOpen(docs[id]) ==> AcceptTx(docs, id, now) == TxResult(docs, Some(AlreadyAcceptedError))
    ensures AcceptTx(docs, id, now).error.None? <==> id in docs && IsOpen(docs[id])
  {
  }

  /**
   * Accepting an open brief marks it assigned to the hard-coded designer at
   * `now`, keeps its other fields, and leaves every other document alone.
   */
  lemma AcceptClaims(docs: map<string, BriefRecord>, id: string, now: Timestamp)
    requires id in docs && IsOpen(docs[id])
    ensures var after := AcceptTx(docs, id, now).docs;
      && after.Keys == docs.Keys
      && after[id]["status"] == Text(Assigned)
      && after[id]["designerId"] == Text(FakeDesignerId)
      && after[id]["assignedAt"] == Time(now)
      && after[id].Keys == docs[id].Keys + {"designerId", "assignedAt"}
      && (forall f | f in docs[id] && f != "status" && f != "designerId" && f != "assignedAt" :: after[id][f] == docs[id][f])
      && (forall k | k in docs && k != id :: after[k] == docs[k])
      && !IsOpen(after[id])
  {
    var after := AcceptTx(docs, id, now).docs;
    assert after[id]["status"] == Text(Assigned);
    assert Text(Assigned) != Text(Open) by {
      assert |Assigned| != |Open|;
    }
  }

  /** Of two accepts of the same open brief, the first wins and the second is refused. */
  lemma FirstWriterWins(docs: map<string, BriefRecord>, id: string, now1: Timestamp, now2: Timestamp)
    requires id in docs && IsOpen(docs[id])
    ensures AcceptTx(docs, id, now1).error.None?
    ensures var second := AcceptTx(AcceptTx(docs, id, now1).docs, id, now2);
      second.error == Some(AlreadyAcceptedError) && second.docs == AcceptTx(docs, id, now1).docs
  {
    AcceptClaims(docs, id, now1);
  }

  /** Accepts of one brief in a row, at the given instants: the errors each one gets. */
  function AcceptAll(docs: map<string, BriefRecord>, id: string, times: seq<Timestamp>): (r: seq<Option<string>>)
    ensures |r| == |times|
    decreases |times|
  {
    if times == [] then []
    else
      var first := AcceptTx(docs, id, times[0]);
      [first.error] + AcceptAll(first.docs, id, times[1..])
  }

  /** However many designers try, only the first attempt on an open brief gets it. */
  lemma {:induction false} OnlyFirstAttemptWins(docs: map<string, BriefRecord>, id: string, times: seq<Timestamp>)
    requires id in docs && IsOpen(docs[id]) && times != []
    ensures AcceptAll(docs, id, times)[0].None?
    ensures forall k | 1 <= k < |times| :: AcceptAll(docs, id, times)[k] == Some(AlreadyAcceptedError)
  {
    AcceptClaims(docs, id, times[0]);
    var after := AcceptTx(docs, id, times[0]).docs;
    ClosedStaysClosed(after, id, times[1..]);
  }

  lemma {:induction false} ClosedStaysClosed(docs: map<string, BriefRecord>, id: string, times: seq<Timestamp>)
    requires id in docs && !IsOpen(docs[id])
    ensures forall k | 0 <= k < |times| :: AcceptAll(docs, id, times)[k] == Some(AlreadyAcceptedError)
    decreases |times|
  {
    if times != [] {
      ClosedStaysClosed(docs, id, times[1..]);
      var r := AcceptAll(docs, id, times);
      assert r == [Some(AlreadyAcceptedError)] + AcceptAll(docs, id, times[1..]);
    }
  }

  // ---- the card's rendering ----

  /** `disabled={loading || brief.status !== 'open'}` */
  predicate AcceptDisabled(loading: bool, status: string) {
    loading || status != Open
  }

  function ButtonLabel(status: string): (r: string)
    ensures r == "Accept Brief" <==> status == Open
  {
    if status == Open then "Accept Brief" else "Assigned (Closed)"
  }

  /**
   * The button of a card whose status is the document's current one is enabled
   * exactly when the accept it starts would succeed (short of a transaction fault).
   */
  lemma EnabledIffAcceptSucceeds(docs: map<string, BriefRecord>, id: string, status: string, now: Timestamp)
    requires id in docs && "status" in docs[id] && docs[id]["status"] == Text(status)
    ensures !AcceptDisabled(false, status) <==> AcceptTx(docs, id, now).error.None?
  {
  }

  /** The core-direction badges: at most the first two tags, then `+n` for the rest. */
  function ShownTags(tags: Option<seq<string>>): (r: seq<string>)
    ensures tags.None? ==> r == []
    ensures tags.Some? ==> |r| == if |tags.value| < 2 then |tags.value| else 2
    ensures tags.Some? ==> r == tags.value[..|r|]
  {
    match tags
    case None => []
    case Some(t) => if |t| < 2 then t else t[..2]
  }

  /** The `+n` badge when more than two tags exist: `n` reads back as the number hidden. */
  function OverflowBadge(tags: Option<seq<string>>): (r: Option<string>)
    ensures r.Some? <==> tags.Some? && |tags.value| > 2
    ensures r.Some? ==> |r.value| >= 2 && r.value[0] == '+'
    ensures r.Some? ==> (forall i | 1 <= i < |r.value| :: '0' <= r.value[i] <= '9')
    ensures r.Some? ==> |r.value| >= 2 && DigitsValue(r.value[1..]) == |tags.value| - 2
  {
    if tags.Some? && |tags.value| > 2 then
      var hidden := |tags.value| - 2;
      NatToStringRoundTrip(hidden);
      assert ("+" + NatToString(hidden))[1..] == NatToString(hidden);
      Some("+" + NatToString(hidden))
    else None
  }

  /**
   * The overflow badge appears exactly when tags are hidden, and the number it
   * shows is how many: shown tags plus that number account for every tag.
   */
  lemma TagsAccountedFor(tags: seq<string>)
    ensures OverflowBadge(Some(tags)).Some? <==> |ShownTags(Some(tags))| < |tags|
    ensures OverflowBadge(Some(tags)).Some? ==>
              var b := OverflowBadge(Some(tags)).value;
              b[0] == '+' && |ShownTags(Some(tags))| + DigitsValue(b[1..]) == |tags|
  {
    if |tags| > 2 {
      var b := OverflowBadge(Some(tags)).value;
      assert b[1..] == NatToString(|tags| - 2);
      NatToStringRoundTrip(|tags| - 2);
    }
  }
}
