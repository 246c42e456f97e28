/** The tamper-evident ring of src/security/audit.ts. The hash is any injective
    function of the fields that are hashed, and of those only. */
module AuditLog {
  import LeakFilter
  import opened Text

  datatype Status = Success | Error | Denied

  /** The argument values; other than texts they are taken as they are. */
  datatype Param = Text(text: string) | Other(json: string)

  type Params = map<string, Param>

  /** What the caller hands to `record`. */
  datatype Invocation = Invocation(timestamp: string, sessionKey: string, toolId: string, toolName: string,
                                   effectClass: string, callId: string, parameters: Params,
                                   resultStatus: Status, durationMs: nat,
                                   callerRole: Option<string>, ownerOnly: Option<bool>)

  datatype Entry = Entry(seqNo: int, call: Invocation, prevHash: string, hash: string)

  /** The hashed fields. The tool's name, the parameters and the duration are not
      among them. */
  datatype Payload = Payload(seqNo: int, timestamp: string, sessionKey: string, toolId: string, effectClass: string,
                             callId: string, resultStatus: Status, callerRole: Option<string>,
                             ownerOnly: Option<bool>, prevHash: string)

  function PayloadOf(e: Entry): Payload {
    Payload(e.seqNo, e.call.timestamp, e.call.sessionKey, e.call.toolId, e.call.effectClass, e.call.callId,
            e.call.resultStatus, e.call.callerRole, e.call.ownerOnly, e.prevHash)
  }

  /** All the hashed fields of two entries, and no others, agree. */
  predicate AgreeWhereHashed(a: Entry, b: Entry) {
    && a.seqNo == b.seqNo && a.prevHash == b.prevHash
    && a.call.timestamp == b.call.timestamp && a.call.sessionKey == b.call.sessionKey
    && a.call.toolId == b.call.toolId && a.call.effectClass == b.call.effectClass
    && a.call.callId == b.call.callId && a.call.resultStatus == b.call.resultStatus
    && a.call.callerRole == b.call.callerRole && a.call.ownerOnly == b.call.ownerOnly
  }

  lemma HashedFields(a: Entry, b: Entry)
    ensures PayloadOf(a) == PayloadOf(b) <==> AgreeWhereHashed(a, b)
  {
  }

  type Hash = Payload -> string

  type Masking = Params -> Params

  ghost predicate Injective(hash: Hash) {
    forall p, q :: hash(p) == hash(q) ==> p == q
  }

  const GENESIS := "GENESIS"

  // ------------------------------------------------------------ recording

  function Masked(mask: Masking, call: Invocation): Invocation {
    call.(parameters := mask(call.parameters))
  }

  function Sealed(hash: Hash, seqNo: int, call: Invocation, prevHash: string): Entry {
    var e := Entry(seqNo, call, prevHash, "");
    e.(hash := hash(PayloadOf(e)))
  }

  function Rotated(maxEntries: int, entries: seq<Entry>): seq<Entry> {
    if |entries| >= maxEntries && entries != [] then entries[1..] else entries
  }

  function Recorded(maxEntries: int, hash: Hash, mask: Masking,
                    entries: seq<Entry>, call: Invocation): seq<Entry>
  {
    var kept := Rotated(maxEntries, entries);
    kept + [if kept == [] then Sealed(hash, 0, Masked(mask, call), GENESIS)
            else Sealed(hash, kept[|kept| - 1].seqNo + 1, Masked(mask, call), kept[|kept| - 1].hash)]
  }

  /** The log after a run of records. */
  function Log(maxEntries: int, hash: Hash, mask: Masking, calls: seq<Invocation>): seq<Entry> {
    if calls == [] then []
    else Recorded(maxEntries, hash, mask, Log(maxEntries, hash, mask, calls[..|calls| - 1]), calls[|calls| - 1])
  }

  // ------------------------------------------------------------ verifying

  /** The entry's hash is its own, and its link points at its predecessor. */
  predicate SoundAt(hash: Hash, entries: seq<Entry>, i: nat)
    requires i < |entries|
  {
    && (i > 0 ==> entries[i].prevHash == entries[i - 1].hash)
    && entries[i].hash == hash(PayloadOf(entries[i]))
  }

  predicate Sound(hash: Hash, entries: seq<Entry>) {
    forall i :: 0 <= i < |entries| ==> SoundAt(hash, entries, i)
  }

  /** The first entry at which the log is broken. */
  predicate BreaksAt(hash: Hash, entries: seq<Entry>, i: nat) {
    i < |entries| && !SoundAt(hash, entries, i) && forall j :: 0 <= j < i ==> SoundAt(hash, entries, j)
  }

  class Audit {
    const maxEntries: int
    const hash: Hash
    const mask: Masking
    var entries: seq<Entry>

    constructor (maxEntries: int, hash: Hash, mask: Masking)
      ensures this.maxEntries == maxEntries && this.hash == hash && this.mask == mask
      ensures entries == Log(maxEntries, hash, mask, [])
    {
      this.maxEntries, this.hash, this.mask := maxEntries, hash, mask;
      entries := [];
    }

    method Record(call: Invocation) returns (entry: Entry)
      modifies this
      ensures entries == Recorded(maxEntries, hash, mask, old(entries), call)
      ensures entry == entries[|entries| - 1]
    {
      if |entries| >= maxEntries && entries != [] {
        entries := entries[1..];
      }
      var seqNo := if entries != [] then entries[|entries| - 1].seqNo + 1 else 0;
      var prevHash := if entries != [] then entries[|entries| - 1].hash else GENESIS;
      entry := Entry(seqNo, Masked(mask, call), prevHash, "");
      entry := entry.(hash := hash(PayloadOf(entry)));
      entries := entries + [entry];
    }

    /** None when valid, otherwise the number of the broken entry. */
    method Verify() returns (brokenAt: Option<int>)
      ensures brokenAt.None? <==> Sound(hash, entries)
      ensures forall i: nat :: BreaksAt(hash, entries, i) ==> brokenAt == Some(entries[i].seqNo)
    {
      for i := 0 to |entries|
        invariant forall j :: 0 <= j < i ==> SoundAt(hash, entries, j)
      {
        var entry := entries[i];
        var expectedPrev := if i == 0 then entries[0].prevHash else entries[i - 1].hash;
        if entry.prevHash != expectedPrev {
          assert !SoundAt(hash, entries, i);
          return Some(entry.seqNo);
        }
        var recomputed := hash(PayloadOf(entry));
        if recomputed != entry.hash {
          assert !SoundAt(hash, entries, i);
          return Some(entry.seqNo);
        }
      }
      return None;
    }
  }

  // ------------------------------------------------------------ every reachable log

  predicate Contiguous(entries: seq<Entry>) {
    forall i :: 0 < i < |entries| ==> entries[i].seqNo == entries[i - 1].seqNo + 1
  }

  lemma RecordKeepsSound(maxEntries: int, hash: Hash, mask: Masking, entries: seq<Entry>, call: Invocation)
    requires Sound(hash, entries) && Contiguous(entries)
    ensures Sound(hash, Recorded(maxEntries, hash, mask, entries, call))
    ensures Contiguous(Recorded(maxEntries, hash, mask, entries, call))
  {
    var kept := Rotated(maxEntries, entries);
    var shift := |entries| - |kept|;
    var after := Recorded(maxEntries, hash, mask, entries, call);
    forall i | 0 <= i < |after| ensures SoundAt(hash, after, i) {
      if i < |kept| {
        assert SoundAt(hash, entries, i + shift);
      }
    }
    forall i | 0 < i < |after| ensures after[i].seqNo == after[i - 1].seqNo + 1 {
      assert i < |kept| ==> after[i] == entries[i + shift] && after[i - 1] == entries[i + shift - 1];
    }
  }

  /** Every log that recording can reach verifies and counts without a gap. */
  lemma {:induction false} ReachableVerifies(maxEntries: int, hash: Hash, mask: Masking,
                                             calls: seq<Invocation>)
    ensures Sound(hash, Log(maxEntries, hash, mask, calls))
    ensures Contiguous(Log(maxEntries, hash, mask, calls))
  {
    if calls != [] {
      ReachableVerifies(maxEntries, hash, mask, calls[..|calls| - 1]);
      RecordKeepsSound(maxEntries, hash, mask, Log(maxEntries, hash, mask, calls[..|calls| - 1]), calls[|calls| - 1]);
    }
  }

  /** The capacity, which a setting below one does not lower to zero. */
  function Capacity(maxEntries: int): nat {
    if maxEntries < 1 then 1 else maxEntries
  }

  lemma {:induction false} HoldsAsManyAsFit(maxEntries: int, hash: Hash, mask: Masking,
                                            calls: seq<Invocation>)
    ensures |Log(maxEntries, hash, mask, calls)| ==
            if |calls| < Capacity(maxEntries) then |calls| else Capacity(maxEntries)
  {
    if calls != [] {
      HoldsAsManyAsFit(maxEntries, hash, mask, calls[..|calls| - 1]);
    }
  }

  lemma RecordedCall(maxEntries: int, hash: Hash, mask: Masking, entries: seq<Entry>, call: Invocation,
                     i: nat)
    requires i < |Recorded(maxEntries, hash, mask, entries, call)|
    ensures var log := Recorded(maxEntries, hash, mask, entries, call);
            var dropped := |entries| + 1 - |log|;
            && 0 <= dropped
            && log[i].call == if i == |log| - 1 then Masked(mask, call) else entries[dropped + i].call
  {
  }

  /** The i-th entry is about the i-th of the latest calls. */
  predicate IsLatest(mask: Masking, entries: seq<Entry>, calls: seq<Invocation>, i: nat) {
    i < |entries| <= |calls| && entries[i].call == Masked(mask, calls[|calls| - |entries| + i])
  }

  lemma LatestStep(maxEntries: int, hash: Hash, mask: Masking, entries: seq<Entry>, calls: seq<Invocation>,
                   call: Invocation, i: nat)
    requires |entries| <= |calls| && i < |Recorded(maxEntries, hash, mask, entries, call)|
    requires forall k: nat :: k < |entries| ==> IsLatest(mask, entries, calls, k)
    ensures IsLatest(mask, Recorded(maxEntries, hash, mask, entries, call), calls + [call], i)
  {
    var log := Recorded(maxEntries, hash, mask, entries, call);
    var was := |entries| + 1 - |log| + i;
    RecordedCall(maxEntries, hash, mask, entries, call, i);
    if i < |log| - 1 {
      assert IsLatest(mask, entries, calls, was);
      assert (calls + [call])[|calls| - |entries| + was] == calls[|calls| - |entries| + was];
    }
  }

  /** The ring holds exactly the latest calls, as many as fit, in order and masked. */
  lemma {:induction false} HoldsTheLatest(maxEntries: int, hash: Hash, mask: Masking, calls: seq<Invocation>)
    ensures |Log(maxEntries, hash, mask, calls)| ==
            if |calls| < Capacity(maxEntries) then |calls| else Capacity(maxEntries)
    ensures forall i: nat :: i < |Log(maxEntries, hash, mask, calls)| ==>
              IsLatest(mask, Log(maxEntries, hash, mask, calls), calls, i)
  {
    HoldsAsManyAsFit(maxEntries, hash, mask, calls);
    if calls != [] {
      var front, call := calls[..|calls| - 1], calls[|calls| - 1];
      HoldsTheLatest(maxEntries, hash, mask, front);
      assert calls == front + [call];
      forall i: nat | i < |Log(maxEntries, hash, mask, calls)|
        ensures IsLatest(mask, Log(maxEntries, hash, mask, calls), calls, i)
      {
        LatestStep(maxEntries, hash, mask, Log(maxEntries, hash, mask, front), front, call, i);
      }
    }
  }

  /** src/security/audit.ts maskParameters: texts are redacted, all else is kept. */
  ghost predicate MasksWith(ps: seq<LeakFilter.Pattern>, mask: Masking) {
    forall parameters: Params ::
      && mask(parameters).Keys == parameters.Keys
      && forall key :: key in parameters ==>
           mask(parameters)[key] ==
           match parameters[key] case Text(text) => Text(LeakFilter.Redact(ps, text)) case Other(_) => parameters[key]
  }

  /** Nothing a guarded pattern matches is in any text that a reachable log holds. */
  lemma NoSecretInLog(maxEntries: int, hash: Hash, mask: Masking, calls: seq<Invocation>,
                      ps: seq<LeakFilter.Pattern>, p: nat, i: nat, key: string)
    requires MasksWith(ps, mask) && p < |ps| && LeakFilter.Guarded(ps[p])
    requires i < |Log(maxEntries, hash, mask, calls)|
    ensures var parameters := Log(maxEntries, hash, mask, calls)[i].call.parameters;
            key in parameters && parameters[key].Text? ==> !LeakFilter.Occurs(ps[p].classes, parameters[key].text)
  {
    HoldsTheLatest(maxEntries, hash, mask, calls);
    assert IsLatest(mask, Log(maxEntries, hash, mask, calls), calls, i);
    var given := calls[|calls| - |Log(maxEntries, hash, mask, calls)| + i].parameters;
    if key in given && given[key].Text? {
      LeakFilter.RedactRemoves(ps, given[key].text, p);
    }
  }

  /** Until an entry has been rotated out the log begins with number zero and the genesis
      link. */
  lemma {:induction false} BeginsAtGenesis(maxEntries: int, hash: Hash, mask: Masking, calls: seq<Invocation>)
    requires 0 < |calls| <= Capacity(maxEntries)
    ensures var first := Log(maxEntries, hash, mask, calls)[0];
            first.seqNo == 0 && first.prevHash == "GENESIS" && first.call == Masked(mask, calls[0])
  {
    var front := calls[..|calls| - 1];
    HoldsAsManyAsFit(maxEntries, hash, mask, front);
    if front != [] {
      BeginsAtGenesis(maxEntries, hash, mask, front);
    }
  }

  /** The latest number counts all records ever made exactly when the ring has room for
      two entries, or nothing has been rotated out yet; a ring of one starts from zero
      and from the genesis link each time. */
  lemma {:induction false} NumbersCountRecords(maxEntries: int, hash: Hash, mask: Masking,
                                               calls: seq<Invocation>)
    requires calls != []
    ensures var log := Log(maxEntries, hash, mask, calls); var last := log[|log| - 1];
            && (last.seqNo == |calls| - 1 <==> maxEntries >= 2 || |calls| == 1)
            && (maxEntries < 2 ==> last.seqNo == 0 && last.prevHash == GENESIS && |log| == 1)
  {
    var front := calls[..|calls| - 1];
    HoldsAsManyAsFit(maxEntries, hash, mask, front);
    HoldsAsManyAsFit(maxEntries, hash, mask, calls);
    if front != [] {
      NumbersCountRecords(maxEntries, hash, mask, front);
    }
  }

  // ------------------------------------------------------------ what a verifying log commits to

  /** Two verifying logs of one length that end in the same hash agree on every hashed
      field of every entry. */
  lemma {:induction false} LastHashDeterminesLog(hash: Hash, a: seq<Entry>, b: seq<Entry>)
    requires Injective(hash) && Sound(hash, a) && Sound(hash, b) && |a| == |b|
    requires a != [] ==> a[|a| - 1].hash == b[|b| - 1].hash
    ensures forall i :: 0 <= i < |a| ==> AgreeWhereHashed(a[i], b[i]) && a[i].hash == b[i].hash
  {
    if a != [] {
      var last := |a| - 1;
      assert SoundAt(hash, a, last) && SoundAt(hash, b, last);
      assert PayloadOf(a[last]) == PayloadOf(b[last]);
      assert PayloadOf(a[last]).prevHash == PayloadOf(b[last]).prevHash;
      PrefixIsSound(hash, a, last);
      PrefixIsSound(hash, b, last);
      LastHashDeterminesLog(hash, a[..last], b[..last]);
      forall i | 0 <= i < |a|
        ensures AgreeWhereHashed(a[i], b[i]) && a[i].hash == b[i].hash
      {
        assert i < last ==> a[i] == a[..last][i] && b[i] == b[..last][i];
      }
    }
  }

  lemma PrefixIsSound(hash: Hash, entries: seq<Entry>, n: nat)
    requires Sound(hash, entries) && n <= |entries|
    ensures Sound(hash, entries[..n])
  {
    forall i | 0 <= i < n ensures SoundAt(hash, entries[..n], i) {
      assert SoundAt(hash, entries, i);
    }
  }

  // ------------------------------------------------------------ tampering

  /** The replacement has a hash of its own and keeps the link to its predecessor. */
  predicate Resealed(hash: Hash, was: Entry, e: Entry, i: nat) {
    e.hash == hash(PayloadOf(e)) && (i > 0 ==> e.prevHash == was.prevHash)
  }

  /** A replaced entry is reported at its own place, or, when it was given a fresh hash,
      at its successor; it passes exactly when no hashed field and no hash has changed,
      or when the last entry has been sealed anew on the same link. */
  lemma ReplacementShows(hash: Hash, entries: seq<Entry>, i: nat, e: Entry)
    requires Injective(hash) && Sound(hash, entries) && i < |entries|
    ensures var was, forged := entries[i], entries[i := e];
            var same := AgreeWhereHashed(e, was) && e.hash == was.hash;
            && (Sound(hash, forged) <==> same || (i == |entries| - 1 && Resealed(hash, was, e, i)))
            && (!Resealed(hash, was, e, i) ==> BreaksAt(hash, forged, i))
            && (Resealed(hash, was, e, i) && !same && i + 1 < |entries| ==> BreaksAt(hash, forged, i + 1))
  {
    var was, forged := entries[i], entries[i := e];
    assert SoundAt(hash, entries, i);
    forall j | 0 <= j < |forged| && j != i && j != i + 1 ensures SoundAt(hash, forged, j) {
      assert SoundAt(hash, entries, j);
    }
    assert SoundAt(hash, forged, i) <==> Resealed(hash, was, e, i);
    if i + 1 < |entries| {
      assert SoundAt(hash, entries, i + 1);
      assert SoundAt(hash, forged, i + 1) <==> e.hash == was.hash;
    }
  }

  /** Altering a single hashed field, the hash or the link of one entry, and nothing
      else, makes verification fail at that entry. */
  lemma SingleFieldShows(hash: Hash, entries: seq<Entry>, i: nat, e: Entry)
    requires Injective(hash) && Sound(hash, entries) && i < |entries|
    requires AgreeWhereHashed(e, entries[i]) != (e.hash == entries[i].hash)
    ensures BreaksAt(hash, entries[i := e], i)
  {
    assert SoundAt(hash, entries, i);
    ReplacementShows(hash, entries, i, e);
  }

  /** The tool's name, the parameters and the duration can be rewritten at will. */
  lemma UnhashedFieldsDoNotShow(hash: Hash, entries: seq<Entry>, i: nat, toolName: string,
                                parameters: Params, durationMs: nat)
    requires Injective(hash) && Sound(hash, entries) && i < |entries|
    ensures var e := entries[i].(call := entries[i].call.(toolName := toolName, parameters := parameters,
                                                          durationMs := durationMs));
            Sound(hash, entries[i := e])
  {
    var e := entries[i].(call := entries[i].call.(toolName := toolName, parameters := parameters,
                                                  durationMs := durationMs));
    ReplacementShows(hash, entries, i, e);
  }

  lemma {:induction false} NumbersRise(entries: seq<Entry>, i: nat, j: nat)
    requires Contiguous(entries) && i < j < |entries|
    ensures entries[j].seqNo == entries[i].seqNo + (j - i)
    decreases j
  {
    if i < j - 1 {
      NumbersRise(entries, i, j - 1);
    }
  }

  /** Removing a stretch of entries shows exactly when something is left on both sides
      of it; it is then reported at the first entry behind the gap. */
  lemma RemovalShows(hash: Hash, entries: seq<Entry>, i: nat, j: nat)
    requires Injective(hash) && Sound(hash, entries) && Contiguous(entries) && i < j <= |entries|
    ensures var cut := entries[..i] + entries[j..];
            && (Sound(hash, cut) <==> i == 0 || j == |entries|)
            && (0 < i && j < |entries| ==> BreaksAt(hash, cut, i))
  {
    var cut := entries[..i] + entries[j..];
    forall k | 0 <= k < |cut| && (k != i || i == 0) ensures SoundAt(hash, cut, k) {
      assert SoundAt(hash, entries, if k < i then k else k + (j - i));
    }
    if 0 < i && j < |entries| {
      NumbersRise(entries, i - 1, j - 1);
      assert SoundAt(hash, entries, j) && SoundAt(hash, entries, j - 1) && SoundAt(hash, entries, i - 1);
      assert cut[i] == entries[j] && cut[i - 1] == entries[i - 1];
      assert PayloadOf(entries[j - 1]).seqNo != PayloadOf(entries[i - 1]).seqNo;
      assert !SoundAt(hash, cut, i);
    }
  }
}
