/** From the dump to the script: which bytes are staged for an entry, and when the script finds them. */
module RequeueEntry {
  import opened Common
  import opened Text
  import opened Utf8
  import opened DumpParser
  import opened DumpLines
  import opened Requeue
  import opened RequeueRuns

  function Elements(blob: string, raw: string -> seq<string>): seq<string> {
    if Framed(SplitLines(blob)) then FramedElements(SplitLines(blob)) else raw(blob)
  }

  predicate IsFirst(elements: seq<string>, errorId: int, idOf: string -> Option<int>, k: nat) {
    && k < |elements| && idOf(elements[k]) == Some(errorId)
    && forall j :: 0 <= j < k ==> idOf(elements[j]) != Some(errorId)
  }

  /** The first element with this error id, or none if no element has it. */
  ghost predicate FirstOf(elements: seq<string>, errorId: int, idOf: string -> Option<int>, entry: Option<string>) {
    match entry
    case None => forall e <- elements :: idOf(e) != Some(errorId)
    case Some(x) => exists k: nat :: IsFirst(elements, errorId, idOf, k) && elements[k] == x
  }

  /** idOf reads the error id off an element, if it is an object that has one. */
  method FindIn(elements: seq<string>, errorId: int, idOf: string -> Option<int>) returns (entry: Option<string>)
    ensures FirstOf(elements, errorId, idOf, entry)
  {
    for k := 0 to |elements|
      invariant forall j :: 0 <= j < k ==> idOf(elements[j]) != Some(errorId)
    {
      if idOf(elements[k]) == Some(errorId) {
        assert IsFirst(elements, errorId, idOf, k);
        return Some(elements[k]);
      }
    }
    entry := None;
  }

  method FindEntry(blob: string, errorId: int, raw: string -> seq<string>, idOf: string -> Option<int>)
    returns (entry: Option<string>)
    ensures FirstOf(Elements(blob, raw), errorId, idOf, entry)
  {
    var elements := ToElements(blob, raw);
    entry := FindIn(elements, errorId, idOf);
  }

  lemma {:induction false} DecodedAt(es: seq<Bytes>, k: nat)
    requires k < |es|
    ensures |Decoded(es)| == |es| && Decoded(es)[k] == Decode(es[k])
  {
    if |es| > 1 {
      DecodedAt(es[1..], if k == 0 then 0 else k - 1);
    }
  }

  /** What the dump of a non-empty list yields: the text of each stored entry, and encoding it for the staging
      key gives the stored bytes back if and only if they are valid UTF-8. */
  lemma StagedIsStored(es: seq<Bytes>, raw: string -> seq<string>, k: nat)
    requires k < |es|
    ensures |Elements(PrintList(es), raw)| == |es|
    ensures Encode(Elements(PrintList(es), raw)[k]) == es[k] <==> WellFormed(es[k])
  {
    DumpRoundTrip(es);
    DecodedAt(es, k);
    EncodeDecode(es[k]);
  }

  /** A single byte that no text encodes to is staged as something else. */
  lemma BadByteIsNotStaged(raw: string -> seq<string>)
    ensures |Elements(PrintList([[0xFF]]), raw)| == 1 && Encode(Elements(PrintList([[0xFF]]), raw)[0]) != [0xFF]
  {
    StagedIsStored([[0xFF]], raw, 0);
    assert !WellFormed([0xFF]);
  }

  /** An entry that was listed and is still there is moved (or put back) by the script if and only if it is
      valid UTF-8, provided no other entry equals its decoded form. */
  lemma RequeueFindsEntry(events: seq<Event>, states: seq<System>, n: nat, i: nat,
                          es: seq<Bytes>, raw: string -> seq<string>, k: nat)
    requires IsHistory(events, states) && n < |events| && i < |states[n].clients| && states[n].clients[i].pc.Eval?
    requires events[n] == Call(i, true, true)
    requires states[n].clients[i].entryKey in states[n].db.keys && states[n].clients[i].taskKey in states[n].db.keys
    requires ListLike(states[n].db, states[n].clients[i].source)
    requires k < |es| && k < |Elements(PrintList(es), raw)|
    requires states[n].clients[i].raw == Encode(Elements(PrintList(es), raw)[k])
    requires es[k] in Items(states[n].db, states[n].clients[i].source)
    requires forall x <- Items(states[n].db, states[n].clients[i].source) :: x == es[k] || x != states[n].clients[i].raw
    ensures states[n+1].clients[i].pc.Exited? && states[n+1].clients[i].pc.result.Some?
    ensures states[n+1].clients[i].pc.result != Some(0) <==> WellFormed(es[k])
  {
    StagedIsStored(es, raw, k);
    ScriptDecides(events, states, n, i);
  }
}
