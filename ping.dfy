/**
 * Pinging search engines about a sitemap: the persistent `PingState` that
 * folds the engines' replies into one status code, and the
 * `PingController` that decides which engines to ping and when a manual
 * ping is allowed. The network call is an input: the status each engine
 * replies with.
 */
module Ping {
  import opened Wrappers
  import opened Text
  import opened OptionStore

  /** One engine's reply to a ping: the engine, the HTTP status (or error message) and when it came back. */
  datatype Response = Response(engine: string, status: string, time: int)

  /** The state `update` carries through its loop: the code, the latest time and whether a reply has failed. */
  datatype Progress = Progress(code: string, latestTime: int, failed: bool)

  /** One turn of `update`'s loop. */
  function Step(p: Progress, r: Response): Progress
  {
    if r.status == "200" then p.(latestTime := r.time, code := if !p.failed then "succeeded" else p.code)
    else if p.failed then p.(code := "failed")
    else Progress("no_" + r.engine, p.latestTime, true)
  }

  /** `update`'s loop over the replies, in order. */
  function Folded(p: Progress, rs: seq<Response>): Progress
  {
    if rs == [] then p else Step(Folded(p, rs[..|rs| - 1]), rs[|rs| - 1])
  }

  /** The engines whose reply was not `'200'`, in order. */
  function FailedEngines(rs: seq<Response>): (es: seq<string>)
    ensures |es| <= |rs|
  {
    if rs == [] then []
    else FailedEngines(rs[..|rs| - 1]) + (if rs[|rs| - 1].status == "200" then [] else [rs[|rs| - 1].engine])
  }

  /**
   * The code after a round of replies: unchanged when there was none,
   * `succeeded` when all were `'200'`, `no_{engine}` when exactly one
   * engine failed, and `failed` when more than one did.
   */
  function CodeAfter(code: string, rs: seq<Response>): string
  {
    var es := FailedEngines(rs);
    if rs == [] then code
    else if es == [] then "succeeded"
    else if |es| == 1 then "no_" + es[0]
    else "failed"
  }

  /** `update`'s code is the one its replies' failures call for, whatever their order. */
  lemma {:induction false} FoldedCode(code: string, latestTime: int, rs: seq<Response>)
    ensures Folded(Progress(code, latestTime, false), rs).code == CodeAfter(code, rs)
    ensures Folded(Progress(code, latestTime, false), rs).failed == (FailedEngines(rs) != [])
  {
    if rs != [] {
      var front := rs[..|rs| - 1];
      FoldedCode(code, latestTime, front);
      if front == [] {
        assert FailedEngines(front) == [];
      }
    }
  }

  /** With no `'200'` reply, `update` keeps the latest time. */
  lemma {:induction false} FoldedTimeNone(p: Progress, rs: seq<Response>)
    requires forall i :: 0 <= i < |rs| ==> rs[i].status != "200"
    ensures Folded(p, rs).latestTime == p.latestTime
  {
    if rs != [] {
      var front := rs[..|rs| - 1];
      assert forall i :: 0 <= i < |front| ==> front[i] == rs[i];
      FoldedTimeNone(p, front);
    }
  }

  /** Otherwise `update`'s latest time is that of the last `'200'` reply. */
  lemma {:induction false} FoldedTimeLast(p: Progress, rs: seq<Response>, j: int)
    requires 0 <= j < |rs| && rs[j].status == "200"
    requires forall i :: j < i < |rs| ==> rs[i].status != "200"
    ensures Folded(p, rs).latestTime == rs[j].time
  {
    if j < |rs| - 1 {
      var front := rs[..|rs| - 1];
      assert front[j] == rs[j];
      assert forall i :: j < i < |front| ==> front[i] == rs[i];
      assert rs[|rs| - 1].status != "200";
      FoldedTimeLast(p, front, j);
    }
  }

  /** The engines the controller knows. */
  predicate KnownEngine(e: string)
  {
    e == "google" || e == "bing"
  }

  lemma {:induction false} FailedEnginesAreEngines(rs: seq<Response>)
    ensures forall e :: e in FailedEngines(rs) ==> exists i :: 0 <= i < |rs| && rs[i].engine == e && rs[i].status != "200"
    ensures FailedEngines(rs) == [] <==> forall i :: 0 <= i < |rs| ==> rs[i].status == "200"
  {
    if rs != [] {
      var front := rs[..|rs| - 1];
      FailedEnginesAreEngines(front);
      assert forall i :: 0 <= i < |front| ==> front[i] == rs[i];
      forall e | e in FailedEngines(rs) ensures exists i :: 0 <= i < |rs| && rs[i].engine == e && rs[i].status != "200" {
        if e in FailedEngines(front) {
          var i :| 0 <= i < |front| && front[i].engine == e && front[i].status != "200";
          assert rs[i] == front[i];
        } else {
          assert rs[|rs| - 1].engine == e;
        }
      }
    }
  }

  /** `ping_failed`: the codes of a round in which some engine failed. */
  predicate PingFailed(code: string)
  {
    code == "no_google" || code == "no_bing" || code == "failed"
  }

  /**
   * After a round of replies from known engines, the admin page reports a
   * failure exactly when some reply was not `'200'`.
   */
  lemma PingFailedAfterReplies(code: string, rs: seq<Response>)
    requires rs != []
    requires forall i :: 0 <= i < |rs| ==> KnownEngine(rs[i].engine)
    ensures PingFailed(CodeAfter(code, rs)) <==> exists i :: 0 <= i < |rs| && rs[i].status != "200"
  {
    FailedEnginesAreEngines(rs);
    var es := FailedEngines(rs);
    if |es| == 1 {
      assert es[0] in es;
      var i :| 0 <= i < |rs| && rs[i].engine == es[0] && rs[i].status != "200";
    }
  }

  /** The larger of a non-empty list of times. */
  function MaxTime(ts: seq<int>): (m: int)
    requires ts != []
    ensures m in ts && forall t :: t in ts ==> t <= m
  {
    if |ts| == 1 then ts[0]
    else
      var rest := MaxTime(ts[1..]);
      assert forall t :: t in ts ==> t == ts[0] || t in ts[1..];
      if ts[0] > rest then ts[0] else rest
  }

  /** The persisted status of the pings of one sitemap. */
  class PingState {
    var sitemapID: string
    var code: string
    var latestTime: int
    /** The ping times older versions kept; only `resetTimes` reads them. */
    var times: seq<int>

    /** A sitemap that has never been pinged. */
    constructor (sitemapID: string)
      ensures this.sitemapID == sitemapID && code == "no_pings_yet" && latestTime == 0 && times == []
    {
      this.sitemapID := sitemapID;
      code := "no_pings_yet";
      latestTime := 0;
      times := [];
    }

    /** A state read back from the store. */
    constructor Restored(r: PingRecord)
      ensures Record() == r
    {
      sitemapID := r.sitemapID;
      code := r.code;
      latestTime := r.latestTime;
      times := r.times;
    }

    /** The fields that are persisted. */
    function Record(): PingRecord
      reads this
    {
      PingRecord(sitemapID, code, latestTime, times)
    }

    method SetSitemapID(id: string)
      modifies this`sitemapID
      ensures sitemapID == id
    {
      sitemapID := id;
    }

    method SetCode(c: string)
      modifies this`code
      ensures code == c
    {
      code := c;
    }

    /** `registerTime`, with the clock as a parameter. */
    method RegisterTime(now: int)
      modifies this`latestTime
      ensures latestTime == now
    {
      latestTime := now;
    }

    method SetLatestTime(t: int)
      modifies this`latestTime
      ensures latestTime == t
    {
      latestTime := t;
    }

    /**
     * `resetTimes`: the latest time becomes the largest of the old times,
     * which are dropped. Without old times PHP 8's `max` throws a
     * `ValueError` before anything is assigned; `thrown` reports it.
     */
    method ResetTimes() returns (thrown: bool)
      modifies this`latestTime, this`times
      ensures thrown <==> old(times) == []
      ensures thrown ==> latestTime == old(latestTime) && times == old(times)
      ensures !thrown ==> latestTime in old(times) && (forall t :: t in old(times) ==> t <= latestTime)
      ensures !thrown ==> times == []
    {
      if times == [] {
        return true;
      }
      latestTime := MaxTime(times);
      times := [];
      thrown := false;
    }

    /**
     * `update`: folds a round of replies, in order, into the code and the
     * latest time. A `'200'` records its time and, unless an earlier reply
     * failed, sets `succeeded`; the first failure sets `no_{engine}` and any
     * later one `failed`. The sitemap ID and the old times are kept.
     */
    method Update(postID: int, responses: seq<Response>)
      modifies this`code, this`latestTime
      ensures var p := Folded(Progress(old(code), old(latestTime), false), responses);
        code == p.code && latestTime == p.latestTime
      ensures Record() == Updated(old(Record()), responses)
    {
      var failed := false;
      ghost var start := Progress(code, latestTime, false);
      var k := 0;
      while k < |responses|
        invariant 0 <= k <= |responses|
        invariant Folded(start, responses[..k]) == Progress(code, latestTime, failed)
      {
        var r := responses[k];
        assert responses[..k + 1][..k] == responses[..k];
        if r.status == "200" {
          latestTime := r.time;
          if !failed {
            code := "succeeded";
          }
        } else if failed {
          code := "failed";
        } else {
          failed := true;
          code := "no_" + r.engine;
        }
        k := k + 1;
      }
      assert responses[..k] == responses;
    }
  }

  /** The sitemaps that are pinged. */
  predicate PingedSitemap(id: string)
  {
    id == "sitemap" || id == "newsmap"
  }

  const MinuteInSeconds := 60

  /** The minimum time between two manual pings: 30 minutes for `sitemap`, 5 for `newsmap`. */
  function MinTimeBetweenPings(id: string): (seconds: int)
    requires PingedSitemap(id)
    ensures seconds == (if id == "sitemap" then 30 else 5) * MinuteInSeconds
  {
    if id == "sitemap" then 30 * MinuteInSeconds else 5 * MinuteInSeconds
  }

  /**
   * The state `getPingState` yields: the cached one when it belongs to the
   * sitemap, else the stored one when it does, else a new one.
   */
  function StateOf(cached: Option<PingRecord>, stored: map<string, PingRecord>, id: string): (r: PingRecord)
    ensures r.sitemapID == id
  {
    if cached.Some? && cached.value.sitemapID == id then cached.value
    else if id in stored && stored[id].sitemapID == id then stored[id]
    else PingRecord(id, "no_pings_yet", 0, [])
  }

  /** `canPingOnRequest`'s verdict: a manual ping is refused only within the minimum time after a successful one. */
  predicate CanPing(st: PingRecord, id: string, now: int)
    requires PingedSitemap(id)
  {
    st.code != "succeeded" || now - st.latestTime > MinTimeBetweenPings(id)
  }

  /**
   * The engines a ping goes to: only the one that failed alone last time,
   * and otherwise Google, plus Bing for `sitemap`.
   */
  function Engines(code: string, id: string): (es: seq<string>)
    ensures es != [] && |es| <= 2 && forall e :: e in es ==> KnownEngine(e)
    ensures "google" in es <==> code != "no_bing"
    ensures "bing" in es <==> code == "no_bing" || (code != "no_google" && id == "sitemap")
  {
    if code == "no_google" then ["google"]
    else if code == "no_bing" then ["bing"]
    else if id == "sitemap" then ["google", "bing"]
    else ["google"]
  }

  /** The replies to pings sent to `engines` at `now`, each engine answering `reply(engine)`. */
  function Replies(engines: seq<string>, reply: string -> string, now: int): (rs: seq<Response>)
    ensures |rs| == |engines|
    ensures forall i :: 0 <= i < |rs| ==> rs[i] == Response(engines[i], reply(engines[i]), now)
  {
    if engines == [] then [] else [Response(engines[0], reply(engines[0]), now)] + Replies(engines[1..], reply, now)
  }

  /** The state `ping` persists: the loaded state updated with the replies of the engines it chose. */
  function Pinged(st: PingRecord, automatic: bool, id: string, reply: string -> string, now: int): PingRecord
  {
    var code := if automatic then "automatic_ping" else st.code;
    Updated(st, Replies(Engines(code, id), reply, now))
  }

  /** A persisted state with a round of replies folded into its code and latest time. */
  function Updated(st: PingRecord, rs: seq<Response>): PingRecord
  {
    var p := Folded(Progress(st.code, st.latestTime, false), rs);
    st.(code := p.code, latestTime := p.latestTime)
  }

  /**
   * After a ping that every engine answered with `'200'`, the code is
   * `succeeded`, the latest time is the time of the ping, and the next
   * manual ping is allowed exactly once the minimum time has passed.
   */
  lemma PingSucceeded(st: PingRecord, automatic: bool, id: string, reply: string -> string, now: int, later: int)
    requires PingedSitemap(id)
    requires forall e :: KnownEngine(e) ==> reply(e) == "200"
    ensures var r := Pinged(st, automatic, id, reply, now);
      && r.sitemapID == st.sitemapID && r.code == "succeeded" && r.latestTime == now
      && (CanPing(r, id, later) <==> later - now > MinTimeBetweenPings(id))
  {
    var code := if automatic then "automatic_ping" else st.code;
    var rs := Replies(Engines(code, id), reply, now);
    var start := Progress(st.code, st.latestTime, false);
    FoldedCode(st.code, st.latestTime, rs);
    FailedEnginesAreEngines(rs);
    assert rs[|rs| - 1].status == "200";
    FoldedTimeLast(start, rs, |rs| - 1);
  }

  /**
   * After a ping that an engine did not answer with `'200'`, the admin page
   * reports the failure and the next manual ping is allowed at once.
   */
  lemma PingFailedAllowsRetry(st: PingRecord, automatic: bool, id: string, reply: string -> string, now: int, later: int)
    requires PingedSitemap(id)
    requires exists e :: e in Engines(if automatic then "automatic_ping" else st.code, id) && reply(e) != "200"
    ensures var r := Pinged(st, automatic, id, reply, now);
      PingFailed(r.code) && CanPing(r, id, later)
  {
    var code := if automatic then "automatic_ping" else st.code;
    var es := Engines(code, id);
    var rs := Replies(es, reply, now);
    FoldedCode(st.code, st.latestTime, rs);
    var e :| e in es && reply(e) != "200";
    var i :| 0 <= i < |es| && es[i] == e;
    assert rs[i].status != "200";
    PingFailedAfterReplies(st.code, rs);
  }

  /** The ping summary of the admin page: whether the latest round failed, the button's title and the status message. */
  datatype Status = LatestPingsSentOn(time: int) | GoogleLastPingedOn(time: int)
                  | CouldNotPingGoogle | CouldNotPingBing | AllPingsFailed | NoPingYet
  datatype PingInfo = PingInfo(pingFailed: bool, buttonTitle: string, status: Status)

  /** `getPingInfo`'s case analysis of the code. */
  function InfoOf(st: PingRecord, id: string): (info: PingInfo)
    ensures info.pingFailed <==> PingFailed(st.code)
    ensures info.status.NoPingYet? <==> st.code != "succeeded" && !PingFailed(st.code)
  {
    match st.code
    case "succeeded" =>
      PingInfo(false, "Ping anew", if id == "sitemap" then LatestPingsSentOn(st.latestTime) else GoogleLastPingedOn(st.latestTime))
    case "no_google" => PingInfo(true, "Ping it again", CouldNotPingGoogle)
    case "no_bing" => PingInfo(true, "Ping them again", CouldNotPingBing)
    case "failed" => PingInfo(true, "Resend pings", AllPingsFailed)
    case _ => PingInfo(false, "Ping", NoPingYet)
  }

  /** The minutes `getTimeToNextPingInWords` shows: the seconds still to wait, rounded up to minutes. */
  function MinutesToNextPing(id: string, timeSinceLatestPing: int): (minutes: int)
    requires PingedSitemap(id)
    ensures (minutes - 1) * MinuteInSeconds < MinTimeBetweenPings(id) - timeSinceLatestPing <= minutes * MinuteInSeconds
  {
    CeilDiv(MinTimeBetweenPings(id) - timeSinceLatestPing, MinuteInSeconds)
  }

  /** While a manual ping is refused, the wait shown is between 0 minutes and the minimum interval. */
  lemma RefusedPingWait(st: PingRecord, id: string, now: int)
    requires PingedSitemap(id) && !CanPing(st, id, now) && now >= st.latestTime
    ensures 0 <= MinutesToNextPing(id, now - st.latestTime) <= MinTimeBetweenPings(id) / MinuteInSeconds
  {
  }

  /** The English wording of the wait: the singular only for one minute. */
  function Words(minutes: int): (words: string)
    ensures words == "about 1 minute" <==> minutes == 1
  {
    assert minutes != 1 ==> IntToString(minutes)[0] != 'a' by {
      if minutes >= 0 {
        assert IsDigit(NatToString(minutes)[0]);
      }
    }
    assert "about 1 minute"[0] == 'a';
    if minutes == 1 then "about 1 minute" else IntToString(minutes) + " minutes"
  }

  class PingController {
    /** The state of the sitemap last asked about. */
    var pingState: PingState?
    /** Seconds since the latest ping, as `canPingOnRequest` last measured them. */
    var timeSinceLatestPing: int
    /** The replies of the round being sent. */
    var responses: seq<Response>

    constructor ()
      ensures pingState == null && timeSinceLatestPing == 0 && responses == []
    {
      pingState := null;
      timeSinceLatestPing := 0;
      responses := [];
    }

    /** The cached state's persisted fields. */
    function Cached(): Option<PingRecord>
      reads this, pingState
    {
      if pingState == null then None else Some(pingState.Record())
    }

    /** `getPingState`: the cached state when it belongs to `id`, else the stored one, else a new one; it is cached. */
    method GetPingState(store: Store, id: string) returns (s: PingState)
      modifies this`pingState
      ensures pingState == s && s.Record() == StateOf(old(Cached()), store.pingStates, id)
      ensures old(pingState) != null && old(pingState.sitemapID) == id ==> s == old(pingState)
      ensures old(pingState) == null || old(pingState.sitemapID) != id ==> fresh(s)
    {
      if pingState == null || pingState.sitemapID != id {
        if id in store.pingStates && store.pingStates[id].sitemapID == id {
          pingState := new PingState.Restored(store.pingStates[id]);
        } else {
          pingState := new PingState(id);
        }
      }
      s := pingState;
    }

    /** `canPingOnRequest`, with the clock as a parameter. */
    method CanPingOnRequest(store: Store, id: string, now: int) returns (can: bool)
      requires PingedSitemap(id)
      modifies this`pingState, this`timeSinceLatestPing
      ensures var st := StateOf(old(Cached()), store.pingStates, id);
        && pingState != null && pingState.Record() == st
        && (old(pingState) == null || old(pingState.sitemapID) != id ==> fresh(pingState))
        && (old(pingState) != null && old(pingState.sitemapID) == id ==> pingState == old(pingState))
        && timeSinceLatestPing == now - st.latestTime
        && can == CanPing(st, id, now)
    {
      var s := GetPingState(store, id);
      timeSinceLatestPing := now - s.latestTime;
      can := s.code != "succeeded" || timeSinceLatestPing > MinTimeBetweenPings(id);
    }

    /**
     * `ping`: unless the filter, the throttle of manual pings or a local
     * site stops it, pings the engines the loaded state calls for, updates
     * the state with their replies and persists it. An automatic ping
     * (one for a published post) is never throttled and takes the default
     * choice of engines.
     */
    method Ping(store: Store, id: string, automatic: bool, canPingFilter: bool, isLocal: bool, reply: string -> string, now: int)
        returns (sent: bool)
      requires !automatic ==> PingedSitemap(id)
      requires responses == []
      modifies this, pingState, store`pingStates
      ensures var st := StateOf(old(Cached()), old(store.pingStates), id);
        && sent == (canPingFilter && (automatic || CanPing(st, id, now)) && !isLocal)
        && store.pingStates == (if sent then old(store.pingStates)[id := Pinged(st, automatic, id, reply, now)] else old(store.pingStates))
        && responses == []
        // the cached state is the one persisted
        && (sent ==> pingState != null && pingState.Record() == Pinged(st, automatic, id, reply, now))
        // a manual ping loads the state and measures the time since its latest ping, even when refused
        && (canPingFilter && !automatic ==> timeSinceLatestPing == now - st.latestTime)
        && (canPingFilter && !automatic && !sent ==> pingState != null && pingState.Record() == st)
        // stopped before anything is loaded: the cache is left as it was
        && (!sent && (!canPingFilter || automatic) ==>
              pingState == old(pingState) && Cached() == old(Cached()) && timeSinceLatestPing == old(timeSinceLatestPing))
    {
      if !canPingFilter {
        return false;
      }
      if !automatic {
        var can := CanPingOnRequest(store, id, now);
        if !can {
          return false;
        }
      }
      if isLocal {
        return false;
      }
      PingEngines(store, id, automatic, reply, now);
      sent := true;
    }

    /** The part of `ping` after its guard: load the state, ping, update, persist, reset the replies. */
    method PingEngines(store: Store, id: string, automatic: bool, reply: string -> string, now: int)
      requires responses == []
      modifies this, pingState, store`pingStates
      ensures var st := StateOf(old(Cached()), old(store.pingStates), id);
        && store.pingStates == old(store.pingStates)[id := Pinged(st, automatic, id, reply, now)]
        && responses == []
        && pingState != null && pingState.Record() == Pinged(st, automatic, id, reply, now)
        && timeSinceLatestPing == old(timeSinceLatestPing)
    {
      ghost var st := StateOf(old(Cached()), old(store.pingStates), id);
      var s := GetPingState(store, id);
      var code := if automatic then "automatic_ping" else s.code;
      var engines := Engines(code, id);
      PingRound(s, engines, reply, now);
      var record := s.Record();
      store.pingStates := store.pingStates[id := record];
      responses := [];
    }

    /** The engines pinged in turn and their replies folded into the loaded state. */
    method PingRound(s: PingState, engines: seq<string>, reply: string -> string, now: int)
      requires responses == []
      modifies this`responses, s`code, s`latestTime
      ensures s.Record() == Updated(old(s.Record()), Replies(engines, reply, now))
    {
      ghost var before := s.Record();
      SendPings(engines, reply, now);
      assert s.Record() == before;
      assert responses == Replies(engines, reply, now);
      s.Update(0, responses);
    }

    /** The `sendPing` calls of `ping`'s `switch`, one per engine, in order. */
    method SendPings(engines: seq<string>, reply: string -> string, now: int)
      modifies this`responses
      ensures responses == old(responses) + Replies(engines, reply, now)
    {
      ghost var before := responses;
      var k := 0;
      while k < |engines|
        invariant 0 <= k <= |engines|
        invariant responses == before + Replies(engines[..k], reply, now)
      {
        SendPing(engines[k], reply, now);
        Text.TakeSnoc(engines, k);
        RepliesAppend(engines[..k], engines[k], reply, now);
        k := k + 1;
      }
      assert engines[..k] == engines;
    }

    /** `sendPing`: the engine's reply, as an input, taken at `now`. */
    method SendPing(engine: string, reply: string -> string, now: int)
      modifies this`responses
      ensures responses == old(responses) + [Response(engine, reply(engine), now)]
    {
      responses := responses + [Response(engine, reply(engine), now)];
    }

    /** `getPingInfo`. */
    method GetPingInfo(store: Store, id: string) returns (info: PingInfo)
      modifies this`pingState
      ensures info == InfoOf(StateOf(old(Cached()), store.pingStates, id), id)
    {
      var s := GetPingState(store, id);
      info := InfoOf(s.Record(), id);
    }

    /** `getTimeToNextPingInWords`. */
    function TimeToNextPingInWords(id: string): (words: string)
      requires PingedSitemap(id)
      reads this
      ensures words == "about 1 minute" <==> MinutesToNextPing(id, timeSinceLatestPing) == 1
    {
      Words(MinutesToNextPing(id, timeSinceLatestPing))
    }
  }

  lemma RepliesAppend(engines: seq<string>, e: string, reply: string -> string, now: int)
    ensures Replies(engines + [e], reply, now) == Replies(engines, reply, now) + [Response(e, reply(e), now)]
  {
    var a := Replies(engines + [e], reply, now);
    var b := Replies(engines, reply, now) + [Response(e, reply(e), now)];
    assert |a| == |b|;
    forall i | 0 <= i < |a| ensures a[i] == b[i] {
      if i < |engines| {
        assert (engines + [e])[i] == engines[i];
      }
    }
  }
}
