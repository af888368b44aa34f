/**
 * The supervisor's bitmap store with per-client tracking of the keys that were sent.
 */
module BitmapTracker {
  import opened Wrappers
  import opened Events

  datatype Tracker = Tracker(bitmaps: map<string, Bytes>, sent: map<string, set<string>>)

  datatype TrackerOp =
    | StoreBitmap(key: string, data: Bytes)
    | MarkSent(client: string, sentKey: string)
    | ClearClient(client: string)
    | Reconcile(client: string, present: set<string>)

  function SentTo(t: Tracker, client: string): set<string> {
    if client in t.sent then t.sent[client] else {}
  }

  function Apply(t: Tracker, op: TrackerOp): Tracker {
    if op.StoreBitmap? then t.(bitmaps := t.bitmaps[op.key := op.data])
    else if op.MarkSent? then t.(sent := t.sent[op.client := SentTo(t, op.client) + {op.sentKey}])
    else if op.ClearClient? then t.(sent := t.sent - {op.client})
    else t.(sent := t.sent[op.client := op.present])
  }

  class BitmapCacheTracker {
    var bitmaps: map<string, Bytes>
    var sent: map<string, set<string>>
    var newBitmapEvent: bool

    ghost function Contents(): Tracker
      reads this
    {
      Tracker(bitmaps, sent)
    }

    constructor ()
      ensures Contents() == Tracker(map[], map[]) && !newBitmapEvent
    {
      bitmaps := map[];
      sent := map[];
      newBitmapEvent := false;
    }

    method StoreBitmap(cacheKey: string, imageData: Bytes)
      modifies this
      ensures Contents() == Apply(old(Contents()), TrackerOp.StoreBitmap(cacheKey, imageData))
      ensures newBitmapEvent
    {
      bitmaps := bitmaps[cacheKey := imageData];
      newBitmapEvent := true;
    }

    method GetBitmap(cacheKey: string) returns (r: Option<Bytes>)
      ensures r.Some? <==> cacheKey in bitmaps
      ensures r.Some? ==> r.value == bitmaps[cacheKey]
    {
      if cacheKey in bitmaps { return Some(bitmaps[cacheKey]); }
      return None;
    }

    method MarkSent(clientId: string, cacheKey: string)
      modifies this`sent
      ensures Contents() == Apply(old(Contents()), TrackerOp.MarkSent(clientId, cacheKey))
    {
      if clientId !in sent {
        sent := sent[clientId := {}];
      }
      sent := sent[clientId := sent[clientId] + {cacheKey}];
    }

    method GetSentKeys(clientId: string) returns (r: set<string>)
      ensures r == SentTo(Contents(), clientId)
    {
      r := if clientId in sent then sent[clientId] else {};
    }

    method ClearClient(clientId: string)
      modifies this`sent
      ensures Contents() == Apply(old(Contents()), TrackerOp.ClearClient(clientId))
    {
      sent := sent - {clientId};
    }

    /** What the supervisor has and the client does not. */
    method Reconcile(clientId: string, presentKeys: set<string>) returns (missing: set<string>)
      modifies this`sent
      ensures Contents() == Apply(old(Contents()), TrackerOp.Reconcile(clientId, presentKeys))
      ensures forall k :: k in missing <==> k in bitmaps && k !in presentKeys
    {
      sent := sent[clientId := presentKeys];
      missing := bitmaps.Keys - presentKeys;
    }
  }

  // ---- What a history of operations amounts to ----

  function Replay(ops: seq<TrackerOp>): Tracker {
    if ops == [] then Tracker(map[], map[]) else Apply(Replay(ops[..|ops| - 1]), ops[|ops| - 1])
  }

  /** The operation records `key` as held by `client`. */
  predicate Grants(op: TrackerOp, client: string, key: string) {
    || (op.MarkSent? && op.client == client && op.sentKey == key)
    || (op.Reconcile? && op.client == client && key in op.present)
  }

  /** The operation forgets what `client` held. */
  predicate Resets(op: TrackerOp, client: string) {
    (op.ClearClient? || op.Reconcile?) && op.client == client
  }

  ghost predicate GrantedAt(ops: seq<TrackerOp>, client: string, key: string, i: int) {
    && 0 <= i < |ops| && Grants(ops[i], client, key)
    && forall j :: i < j < |ops| ==> !Resets(ops[j], client)
  }

  /** `key` was recorded for `client` in `ops` and not forgotten since. */
  ghost predicate Granted(ops: seq<TrackerOp>, client: string, key: string) {
    exists i :: GrantedAt(ops, client, key, i)
  }

  lemma ApplySent(t: Tracker, op: TrackerOp, client: string, key: string)
    ensures key in SentTo(Apply(t, op), client)
       <==> Grants(op, client, key) || (!Resets(op, client) && key in SentTo(t, client))
  {
  }

  lemma GrantedBefore(ops: seq<TrackerOp>, client: string, key: string, i: int)
    requires ops != [] && GrantedAt(ops[..|ops| - 1], client, key, i) && !Resets(ops[|ops| - 1], client)
    ensures GrantedAt(ops, client, key, i)
  {
  }

  /**
   * A client's sent set is what it reported at its last reconcile, nothing if it was cleared
   * or never seen, plus every key marked for it since.  Other clients' operations do not enter.
   */
  lemma {:induction false} SentIff(ops: seq<TrackerOp>, client: string, key: string)
    ensures key in SentTo(Replay(ops), client) <==> Granted(ops, client, key)
  {
    if ops != [] {
      var init, last := ops[..|ops| - 1], ops[|ops| - 1];
      SentIff(init, client, key);
      ApplySent(Replay(init), last, client, key);
      if Grants(last, client, key) {
        assert GrantedAt(ops, client, key, |ops| - 1);
      } else if !Resets(last, client) && key in SentTo(Replay(init), client) {
        var i :| GrantedAt(init, client, key, i);
        GrantedBefore(ops, client, key, i);
      }
      if i :| GrantedAt(ops, client, key, i) {
        if i < |ops| - 1 {
          assert init[i] == ops[i];
          assert GrantedAt(init, client, key, i);
        }
      }
    }
  }
}
