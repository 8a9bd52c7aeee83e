/**
 * The client side of src/socket.js that is not networking: the list of server URLs to
 * try, the walk through that list, and the micro-batcher that coalesces incoming feature
 * collections into one store update per flush.
 */
module Socket {
  import opened Wrappers
  import opened Telemetry
  import opened Identity
  import opened Tracks
  import opened DroneStore

  // ---------------------------------------------------------------------------------------
  // Candidate URLs

  const DefaultRemote := "https://drone-monitor-backend.onrender.com"
  const LocalUrl := "http://localhost:9013"

  /** The prefix the regular expression `/^http:\/\/localhost/i` looks for. */
  const LocalPrefix := "http://localhost"

  /** `envUrl || defaultRemote`. */
  function RemoteUrl(envUrl: string): string {
    if envUrl != "" then envUrl else DefaultRemote
  }

  /** The candidate list before filtering: remote first in production, localhost first otherwise. */
  function InitialCandidates(isProd: bool, envUrl: string): seq<string> {
    if isProd then [RemoteUrl(envUrl), LocalUrl] else [LocalUrl, RemoteUrl(envUrl)]
  }

  /** ASCII lower case: the case-insensitive matching of the regular expression. */
  function LowerAscii(c: char): char {
    if 'A' <= c <= 'Z' then (c - 'A' + 'a') as char else c
  }

  /** The URL starts with "http://localhost", ignoring the case of letters. */
  predicate IsLocalHttp(u: string) {
    |u| >= |LocalPrefix| && forall i :: 0 <= i < |LocalPrefix| ==> LowerAscii(u[i]) == LocalPrefix[i]
  }

  /** `candidates.filter(u => !/^http:\/\/localhost/i.test(u))`. */
  function WithoutLocalHttp(s: seq<string>): (r: seq<string>) {
    if |s| == 0 then []
    else WithoutLocalHttp(s[..|s| - 1]) + (if IsLocalHttp(s[|s| - 1]) then [] else [s[|s| - 1]])
  }

  /** `candidates.filter(Boolean)`. */
  function NonEmpty(s: seq<string>): seq<string> {
    if |s| == 0 then []
    else NonEmpty(s[..|s| - 1]) + (if s[|s| - 1] == "" then [] else [s[|s| - 1]])
  }

  /** `Array.from(new Set(s))`: each value once, at the place it first occurs. */
  function Dedup(s: seq<string>): seq<string> {
    if |s| == 0 then []
    else
      var d := Dedup(s[..|s| - 1]);
      if s[|s| - 1] in d then d else d + [s[|s| - 1]]
  }

  /** The candidate list of `initSocket` (src/socket.js lines 15-30). */
  function Candidates(isProd: bool, isPageHttps: bool, envUrl: string): seq<string> {
    var init := InitialCandidates(isProd, envUrl);
    Dedup(NonEmpty(if isPageHttps then WithoutLocalHttp(init) else init))
  }

  /** Filtering keeps exactly the URLs that are not plain-http localhost. */
  lemma {:induction false} WithoutLocalHttpMembers(s: seq<string>)
    ensures forall u :: u in WithoutLocalHttp(s) <==> u in s && !IsLocalHttp(u)
  {
    if |s| > 0 {
      WithoutLocalHttpMembers(s[..|s| - 1]);
      assert s == s[..|s| - 1] + [s[|s| - 1]];
    }
  }

  /** Filtering keeps exactly the non-empty URLs. */
  lemma {:induction false} NonEmptyMembers(s: seq<string>)
    ensures forall u :: u in NonEmpty(s) <==> u in s && u != ""
  {
    if |s| > 0 {
      NonEmptyMembers(s[..|s| - 1]);
      assert s == s[..|s| - 1] + [s[|s| - 1]];
    }
  }

  /** Position of the first occurrence of `u` in `s`. */
  function FirstIndex(s: seq<string>, u: string): (i: nat)
    requires u in s
    ensures i < |s| && s[i] == u && u !in s[..i]
  {
    if s[0] == u then 0 else 1 + FirstIndex(s[1..], u)
  }

  /**
   * De-duplication keeps every value exactly once, drops nothing else, and lists the values
   * in the order of their first occurrence.
   */
  lemma {:induction false} DedupSpec(s: seq<string>)
    ensures Distinct(Dedup(s))
    ensures forall u :: u in Dedup(s) <==> u in s
    ensures forall i, j :: 0 <= i < j < |Dedup(s)| ==>
      FirstIndex(s, Dedup(s)[i]) < FirstIndex(s, Dedup(s)[j])
  {
    if |s| > 0 {
      var init := s[..|s| - 1];
      var x := s[|s| - 1];
      var d := Dedup(init);
      DedupSpec(init);
      assert s == init + [x];
      forall u | u in init ensures FirstIndex(s, u) == FirstIndex(init, u) {
        FirstIndexPrefix(init, x, u);
      }
      if x !in d {
        assert x !in init;
        FirstIndexLast(init, x);
        var d' := d + [x];
        forall i, j | 0 <= i < j < |d'| ensures FirstIndex(s, d'[i]) < FirstIndex(s, d'[j]) {
          assert d'[i] in init;
          if j < |d| {
            assert d'[j] in init;
          }
        }
      } else {
        forall i, j | 0 <= i < j < |d| ensures FirstIndex(s, d[i]) < FirstIndex(s, d[j]) {
          assert d[i] in init && d[j] in init;
        }
      }
    }
  }

  /** Appending an element does not move the first occurrence of an earlier value. */
  lemma {:induction false} FirstIndexPrefix(s: seq<string>, x: string, u: string)
    requires u in s
    ensures FirstIndex(s + [x], u) == FirstIndex(s, u)
  {
    if s[0] != u {
      assert (s + [x])[1..] == s[1..] + [x];
      FirstIndexPrefix(s[1..], x, u);
    }
  }

  /** A value that only occurs at the end first occurs at the end. */
  lemma {:induction false} FirstIndexLast(s: seq<string>, x: string)
    requires x !in s
    ensures FirstIndex(s + [x], x) == |s|
  {
    if |s| > 0 {
      assert (s + [x])[1..] == s[1..] + [x];
      FirstIndexLast(s[1..], x);
    }
  }

  /** The first candidate that survives both filters is the first entry of the result. */
  lemma {:induction false} DedupHead(s: seq<string>)
    requires |s| > 0
    ensures |Dedup(s)| > 0 && Dedup(s)[0] == s[0]
  {
    if |s| > 1 {
      DedupHead(s[..|s| - 1]);
    }
  }

  /**
   * The candidate list: on an https page no plain-http localhost URL remains; no entry is
   * empty or repeated; exactly the surviving URLs appear; in production the remote URL comes
   * first and in development localhost does, when the page is not https.
   */
  lemma CandidatesSpec(isProd: bool, isPageHttps: bool, envUrl: string)
    ensures var c := Candidates(isProd, isPageHttps, envUrl);
      && (isPageHttps ==> forall u :: u in c ==> !IsLocalHttp(u))
      && "" !in c && Distinct(c)
      && (forall u :: u in c <==>
            u in InitialCandidates(isProd, envUrl) && u != "" && !(isPageHttps && IsLocalHttp(u)))
      && (!isPageHttps && isProd ==> |c| > 0 && c[0] == RemoteUrl(envUrl))
      && (!isPageHttps && !isProd ==> |c| > 0 && c[0] == LocalUrl)
  {
    var init := InitialCandidates(isProd, envUrl);
    var kept := if isPageHttps then WithoutLocalHttp(init) else init;
    WithoutLocalHttpMembers(init);
    NonEmptyMembers(kept);
    DedupSpec(NonEmpty(kept));
    if !isPageHttps {
      assert init[0] != "" by {
        assert |DefaultRemote| > 0 && |LocalUrl| > 0;
      }
      assert init[..1][..0] == [];
      assert NonEmpty(init[..1]) == [init[0]];
      assert init[..|init| - 1] == init[..1];
      assert NonEmpty(init)[0] == init[0];
      DedupHead(NonEmpty(init));
    }
  }

  /** The https filter step of `initSocket`. */
  method DropLocalHttp(urls: seq<string>) returns (kept: seq<string>)
    ensures kept == WithoutLocalHttp(urls)
  {
    kept := [];
    for i := 0 to |urls|
      invariant kept == WithoutLocalHttp(urls[..i])
    {
      assert urls[..i + 1][..i] == urls[..i];
      if !IsLocalHttp(urls[i]) {
        kept := kept + [urls[i]];
      }
    }
    assert urls[..|urls|] == urls;
  }

  /** The `filter(Boolean)` step. */
  method DropEmpty(urls: seq<string>) returns (kept: seq<string>)
    ensures kept == NonEmpty(urls)
  {
    kept := [];
    for i := 0 to |urls|
      invariant kept == NonEmpty(urls[..i])
    {
      assert urls[..i + 1][..i] == urls[..i];
      if urls[i] != "" {
        kept := kept + [urls[i]];
      }
    }
    assert urls[..|urls|] == urls;
  }

  /** The `Array.from(new Set(...))` step. */
  method DropRepeats(urls: seq<string>) returns (kept: seq<string>)
    ensures kept == Dedup(urls)
  {
    kept := [];
    for i := 0 to |urls|
      invariant kept == Dedup(urls[..i])
    {
      assert urls[..i + 1][..i] == urls[..i];
      if urls[i] !in kept {
        kept := kept + [urls[i]];
      }
    }
    assert urls[..|urls|] == urls;
  }

  /** `initSocket`'s candidate list, built step by step (src/socket.js lines 15-30). */
  method BuildCandidates(isProd: bool, isPageHttps: bool, envUrl: string) returns (candidates: seq<string>)
    ensures candidates == Candidates(isProd, isPageHttps, envUrl)
    ensures isPageHttps ==> forall u :: u in candidates ==> !IsLocalHttp(u)
    ensures "" !in candidates && Distinct(candidates)
    ensures !isPageHttps && isProd ==> |candidates| > 0 && candidates[0] == RemoteUrl(envUrl)
    ensures !isPageHttps && !isProd ==> |candidates| > 0 && candidates[0] == LocalUrl
  {
    candidates := InitialCandidates(isProd, envUrl);
    if isPageHttps {
      candidates := DropLocalHttp(candidates);
    }
    candidates := DropEmpty(candidates);
    candidates := DropRepeats(candidates);
    CandidatesSpec(isProd, isPageHttps, envUrl);
  }

  // ---------------------------------------------------------------------------------------
  // Walking the candidates

  /** The `attemptIndex` walk of `attemptNext`: each URL is handed out once, in list order. */
  class Connector {
    const candidates: seq<string>
    var attemptIndex: nat
    /** The URLs handed out so far. */
    ghost var tried: seq<string>

    ghost predicate Valid()
      reads this
    {
      attemptIndex <= |candidates| && tried == candidates[..attemptIndex]
    }

    constructor (candidates: seq<string>)
      ensures Valid() && this.candidates == candidates && attemptIndex == 0 && tried == []
    {
      this.candidates := candidates;
      attemptIndex := 0;
      tried := [];
    }

    /** `attemptNext()`: the next URL to try, or None once every candidate has been tried. */
    method AttemptNext() returns (url: Option<string>)
      requires Valid()
      modifies this`attemptIndex, this`tried
      ensures Valid()
      ensures old(attemptIndex) == |candidates| ==> url == None && attemptIndex == old(attemptIndex)
      ensures old(attemptIndex) < |candidates| ==>
        && url == Some(candidates[old(attemptIndex)])
        && attemptIndex == old(attemptIndex) + 1
        && tried == old(tried) + [url.value]
    {
      if attemptIndex >= |candidates| {
        return None;
      }
      url := Some(candidates[attemptIndex]);
      attemptIndex := attemptIndex + 1;
      tried := tried + [url.value];
    }
  }

  // ---------------------------------------------------------------------------------------
  // Micro-batching

  /** The features of every buffered collection with a `features` array, in arrival order. */
  function MergedFeatures(batch: seq<Payload>): seq<Feature> {
    if |batch| == 0 then []
    else
      var last := batch[|batch| - 1];
      MergedFeatures(batch[..|batch| - 1]) + (if last.Collection? then last.features else [])
  }

  /** Each buffered message applied by its own update, one after the other. */
  function ApplyEach(r: Registry, batch: seq<Payload>, now: int, geo: Geo, freshId: string): Registry {
    if |batch| == 0 then r
    else
      var mid := ApplyEach(r, batch[..|batch| - 1], now, geo, freshId);
      var last := batch[|batch| - 1];
      if last.Collection? then ApplyAll(mid, last.features, now, geo, freshId) else mid
  }

  /**
   * Coalescing changes nothing but the number of store updates: one update with the merged
   * features leaves the dictionary as the buffered messages would, applied one by one.
   */
  lemma {:induction false} CoalescingIsTransparent(r: Registry, batch: seq<Payload>, now: int, geo: Geo, freshId: string)
    ensures ApplyAll(r, MergedFeatures(batch), now, geo, freshId) == ApplyEach(r, batch, now, geo, freshId)
  {
    if |batch| > 0 {
      var init := batch[..|batch| - 1];
      var last := batch[|batch| - 1];
      CoalescingIsTransparent(r, init, now, geo, freshId);
      ApplyAllConcat(r, MergedFeatures(init), if last.Collection? then last.features else [], now, geo, freshId);
    }
  }

  /**
   * The buffer and the "timer pending" flag of `initSocket`, with the store's update as the
   * sink of `flush`. A timer is pending exactly while the buffer holds something, so at most
   * one flush is ever outstanding.
   */
  class Batcher {
    var batch: seq<Payload>
    var timerPending: bool
    const store: Store

    ghost predicate Valid()
      reads this
    {
      timerPending <==> |batch| > 0
    }

    constructor (store: Store)
      ensures Valid() && batch == [] && !timerPending && this.store == store
    {
      batch := [];
      timerPending := false;
      this.store := store;
    }

    /** The `message` handler: buffer the payload; schedule a flush only if none is pending. */
    method OnMessage(fc: Payload) returns (scheduled: bool)
      requires Valid()
      modifies this`batch, this`timerPending
      ensures Valid()
      ensures batch == old(batch) + [fc] && timerPending
      ensures scheduled <==> !old(timerPending)
    {
      batch := batch + [fc];
      scheduled := !timerPending;
      if !timerPending {
        timerPending := true;
      }
    }

    /**
     * `flush`: nothing on an empty buffer; otherwise one store update with the concatenated
     * features, after which the buffer is empty and no timer is pending.
     */
    method Flush(now: int, geo: Geo, freshId: string)
      requires Valid() && store.Valid()
      modifies this`batch, this`timerPending, store`drones
      ensures Valid() && store.Valid()
      ensures old(batch) == [] ==> batch == [] && !timerPending && store.drones == old(store.drones)
      ensures old(batch) != [] ==>
        && batch == [] && !timerPending
        && store.drones == (if store.ingestEnabled
                            then ApplyAll(old(store.drones), MergedFeatures(old(batch)), now, geo, freshId)
                            else old(store.drones))
    {
      if |batch| == 0 {
        return;
      }
      var merged: seq<Feature> := [];
      for i := 0 to |batch|
        invariant merged == MergedFeatures(batch[..i])
      {
        assert batch[..i + 1][..i] == batch[..i];
        var fc := batch[i];
        if fc.Collection? {
          merged := merged + fc.features;
        }
      }
      assert batch[..|batch|] == batch;
      store.UpsertFromFeatureCollection(Collection(merged), now, geo, freshId);
      batch := [];
      timerPending := false;
    }
  }
}
