/**
 * Abuse protection in front of the MCP server: the identity a request is charged to, the
 * process-wide failure counters per IP and per user with their auto-block, the explicit block
 * and its deferred unblock, and the admission decision taken for every request.
 */
module RateLimit {
  import opened Wrappers
  import opened PyData
  import Text

  const AbuseThresholdCount: nat := 50
  /** 15 minutes. */
  const AbuseWindowSeconds: real := 900.0
  const DefaultBlockSeconds: int := 3600

  const IpBlockedReason := "IP address is blocked due to abuse"
  const UserBlockedReason := "User account is blocked due to abuse"

  /** Request headers by name (the framework's case-insensitive lookup is taken as done). */
  type Headers = map<string, string>

  function Header(headers: Headers, name: string): Option<string> {
    if name in headers then Some(headers[name]) else None
  }

  /**
   * `get_user_id`: the Privy header if it is non-empty, else the plain user header. A header that
   * is absent or empty gives no user (`None` here; the code then tests the value for truthiness).
   */
  function GetUserId(headers: Headers): (r: Option<string>)
    ensures r.None? <==> !Truthy(Header(headers, "X-Privy-User-Id")) && !Truthy(Header(headers, "X-User-Id"))
    ensures Truthy(Header(headers, "X-Privy-User-Id")) ==> r == Header(headers, "X-Privy-User-Id")
    ensures r.Some? ==> r.value != "" && (r == Header(headers, "X-Privy-User-Id") || r == Header(headers, "X-User-Id"))
  {
    var privy := Header(headers, "X-Privy-User-Id");
    var plain := Header(headers, "X-User-Id");
    if Truthy(privy) then privy else if Truthy(plain) then plain else None
  }

  /**
   * `r` is an entry of the comma-separated list `f` that starts at `a` and whose field ends at
   * the separator position `c`, with the whitespace around it removed.
   */
  ghost predicate EntryAt(f: string, r: string, a: int, c: int) {
    0 <= a && a + |r| <= c <= |f|
    && f[a..a + |r|] == r
    && (c == |f| || f[c] == ',')
    && (forall k :: 0 <= k < a ==> Text.IsSpace(f[k]))
    && (forall k :: a + |r| <= k < c ==> Text.IsSpace(f[k]))
    && (r == [] || (!Text.IsSpace(r[0]) && !Text.IsSpace(r[|r| - 1])))
  }

  /** `r` is the left-most entry of `f`, stripped: the field before the first comma. */
  ghost predicate IsLeftmostEntry(f: string, r: string) {
    exists a, c :: EntryAt(f, r, a, c) && ',' !in f[..c]
  }

  /**
   * `get_client_ip`: the left-most `X-Forwarded-For` entry, whitespace-stripped; without that
   * header (or with an empty one) the transport peer address.
   */
  function GetClientIp(headers: Headers, peer: string): (r: string)
    ensures !Truthy(Header(headers, "X-Forwarded-For")) ==> r == peer
    ensures Truthy(Header(headers, "X-Forwarded-For")) ==>
      ',' !in r && IsLeftmostEntry(headers["X-Forwarded-For"], r)
  {
    var forwarded := Header(headers, "X-Forwarded-For");
    if Truthy(forwarded) then
      var f := forwarded.value;
      var r := Text.Strip(Text.Split(f, ',')[0]);
      LeftmostEntryStripped(f);
      r
    else peer
  }

  lemma LeftmostEntryStripped(f: string)
    ensures ',' !in Text.Strip(Text.Split(f, ',')[0])
    ensures IsLeftmostEntry(f, Text.Strip(Text.Split(f, ',')[0]))
  {
    var head := Text.Split(f, ',')[0];
    Text.SplitHead(f, ',');
    Text.SplitPartsSeparatorFree(f, ',');
    var r := Text.Strip(head);
    var a := StripIsSlice(head);
    EntryFromField(f, head, r, a);
    NotInSlice(head, a, a + |r|, ',');
  }

  lemma NotInSlice(s: string, i: nat, j: nat, c: char)
    requires i <= j <= |s| && c !in s
    ensures c !in s[i..j]
  {
  }

  /** `s.strip()` is the slice of `s` starting at the returned position, with only whitespace around it. */
  lemma StripIsSlice(s: string) returns (a: int)
    ensures 0 <= a && a + |Text.Strip(s)| <= |s| && s[a..a + |Text.Strip(s)|] == Text.Strip(s)
    ensures forall k :: 0 <= k < a ==> Text.IsSpace(s[k])
    ensures forall k :: a + |Text.Strip(s)| <= k < |s| ==> Text.IsSpace(s[k])
  {
    var left := Text.TrimLeft(s);
    var r := Text.TrimRight(left);
    a := |s| - |left|;
    SliceOfSuffix(s, a, r);
  }

  /** A prefix of a suffix of `s`, followed by whitespace only, is a slice of `s` with the same tail. */
  lemma SliceOfSuffix(s: string, a: nat, r: string)
    requires a <= |s| && |r| <= |s| - a && r == s[a..][..|r|]
    requires forall k :: |r| <= k < |s| - a ==> Text.IsSpace(s[a..][k])
    ensures s[a..a + |r|] == r
    ensures forall k :: a + |r| <= k < |s| ==> Text.IsSpace(s[k])
  {
    assert s[a..][..|r|] == s[a..a + |r|];
    forall k | a + |r| <= k < |s|
      ensures Text.IsSpace(s[k])
    {
      assert s[k] == s[a..][k - a];
    }
  }

  /** A stripped slice of the field before the first separator is an entry of the whole list. */
  lemma EntryFromField(f: string, head: string, r: string, a: int)
    requires |head| <= |f| && head == f[..|head|] && (|head| == |f| || f[|head|] == ',')
    requires 0 <= a && a + |r| <= |head| && head[a..a + |r|] == r
    requires forall k :: 0 <= k < a ==> Text.IsSpace(head[k])
    requires forall k :: a + |r| <= k < |head| ==> Text.IsSpace(head[k])
    requires r == [] || (!Text.IsSpace(r[0]) && !Text.IsSpace(r[|r| - 1]))
    requires ',' !in head
    ensures IsLeftmostEntry(f, r)
  {
    var c := |head|;
    assert f[a..a + |r|] == r by {
      assert f[a..a + |r|] == f[..c][a..a + |r|];
    }
    assert forall k :: 0 <= k < c ==> f[k] == head[k];
    assert EntryAt(f, r, a, c);
  }

  /**
   * Who a request is charged to: `GetClientIp` and `GetUserId` of its headers, worked out by
   * the caller.
   */
  datatype Identity = Identity(ip: string, user: Option<string>)

  /** `if user_id:` */
  predicate HasUser(id: Identity) {
    Truthy(id.user)
  }

  /**
   * One tracked key. `firstSeen` is absent for entries made by an explicit block, which the
   * failure counter then cannot use.
   */
  datatype Entry = Entry(count: nat, firstSeen: Option<real>, blocked: bool)

  function Lookup(m: map<string, Entry>, key: string): Option<Entry> {
    if key in m then Some(m[key]) else None
  }

  predicate EntryBlocked(m: map<string, Entry>, key: string) {
    key in m && m[key].blocked
  }

  /**
   * One failure counted against one key: the entry is created on first use, the window is
   * restarted when more than 15 minutes passed since it opened, the count goes up by one and
   * the key is blocked once the count reaches the threshold. `None` is the `KeyError` the code
   * raises on an entry without `first_seen`.
   */
  function FailureStep(prev: Option<Entry>, now: real): (r: Option<Entry>)
    ensures r.None? <==> (prev.Some? && prev.value.firstSeen.None?)
    ensures prev.None? ==> r == Some(Entry(1, Some(now), false))
    ensures r.Some? && prev.Some? && now - prev.value.firstSeen.value > AbuseWindowSeconds ==>
      r.value.count == 1 && r.value.firstSeen == Some(now)
    ensures r.Some? && prev.Some? && now - prev.value.firstSeen.value <= AbuseWindowSeconds ==>
      r.value.count == prev.value.count + 1 && r.value.firstSeen == prev.value.firstSeen
    ensures r.Some? ==>
      r.value.blocked == ((prev.Some? && prev.value.blocked) || r.value.count >= AbuseThresholdCount)
  {
    var e := if prev.Some? then prev.value else Entry(0, Some(now), false);
    match e.firstSeen
    case None => None
    case Some(first) =>
      var windowed := if now - first > AbuseWindowSeconds then e.(count := 0, firstSeen := Some(now)) else e;
      var bumped := windowed.(count := windowed.count + 1);
      Some(if bumped.count >= AbuseThresholdCount && !bumped.blocked then bumped.(blocked := true) else bumped)
  }

  /** The tracker's maps after `track_failed_request`, and whether it raised. */
  datatype TrackOutcome = TrackOutcome(byIp: map<string, Entry>, byUser: map<string, Entry>, fault: bool)

  /**
   * `track_failed_request` on the two maps: the IP entry is always charged; the user entry only
   * when there is a user. A fault on the IP entry changes nothing; a fault on the user entry
   * keeps the IP update already made.
   */
  function Track(byIp: map<string, Entry>, byUser: map<string, Entry>, id: Identity, now: real): (t: TrackOutcome)
    ensures FailureStep(Lookup(byIp, id.ip), now).None? ==> t == TrackOutcome(byIp, byUser, true)
    ensures FailureStep(Lookup(byIp, id.ip), now).Some? ==>
      t.byIp == byIp[id.ip := FailureStep(Lookup(byIp, id.ip), now).value]
    ensures !HasUser(id) ==> t.byUser == byUser && (t.fault <==> FailureStep(Lookup(byIp, id.ip), now).None?)
    ensures HasUser(id) && FailureStep(Lookup(byIp, id.ip), now).Some? ==>
      var u := FailureStep(Lookup(byUser, id.user.value), now);
      t.fault == u.None? && t.byUser == (if u.Some? then byUser[id.user.value := u.value] else byUser)
    ensures forall k :: k != id.ip && k in byIp ==> k in t.byIp && t.byIp[k] == byIp[k]
    ensures forall k :: (!HasUser(id) || k != id.user.value) && k in byUser ==> k in t.byUser && t.byUser[k] == byUser[k]
  {
    match FailureStep(Lookup(byIp, id.ip), now)
    case None => TrackOutcome(byIp, byUser, true)
    case Some(ipEntry) =>
      var ips := byIp[id.ip := ipEntry];
      if !HasUser(id) then TrackOutcome(ips, byUser, false)
      else
        match FailureStep(Lookup(byUser, id.user.value), now)
        case None => TrackOutcome(ips, byUser, true)
        case Some(userEntry) => TrackOutcome(ips, byUser[id.user.value := userEntry], false)
  }

  /**
   * `is_blocked`: the IP block is looked at first and wins; a user block counts only when there
   * is a user; otherwise `(false, None)`.
   */
  function BlockStatus(byIp: map<string, Entry>, byUser: map<string, Entry>, id: Identity): (r: (bool, Option<string>))
    ensures r.0 <==> EntryBlocked(byIp, id.ip) || (HasUser(id) && EntryBlocked(byUser, id.user.value))
    ensures EntryBlocked(byIp, id.ip) ==> r.1 == Some(IpBlockedReason)
    ensures !EntryBlocked(byIp, id.ip) && r.0 ==> r.1 == Some(UserBlockedReason)
    ensures !r.0 ==> r.1 == None
  {
    if EntryBlocked(byIp, id.ip) then (true, Some(IpBlockedReason))
    else if HasUser(id) && EntryBlocked(byUser, id.user.value) then (true, Some(UserBlockedReason))
    else (false, None)
  }

  /** The entry after an explicit block: a missing entry is made with count 0 and no `first_seen`. */
  function BlockedEntry(prev: Option<Entry>): (e: Entry)
    ensures e.blocked
    ensures prev.Some? ==> e.count == prev.value.count && e.firstSeen == prev.value.firstSeen
    ensures prev.None? ==> e.count == 0 && e.firstSeen.None?
  {
    match prev
    case None => Entry(0, None, true)
    case Some(x) => x.(blocked := true)
  }

  /** The deferred `unblock_after_delay` that `block_client` schedules, with what it captured. */
  datatype UnblockTask = UnblockTask(ip: string, user: Option<string>, delaySeconds: int)

  /** The body of `unblock_after_delay` on one map: clears the flag of an existing entry only. */
  function Unblocked(m: map<string, Entry>, key: string): (r: map<string, Entry>)
    ensures r.Keys == m.Keys
    ensures key in m ==> r[key] == m[key].(blocked := false)
    ensures forall k :: k in m && k != key ==> r[k] == m[k]
  {
    if key in m then m[key := m[key].(blocked := false)] else m
  }

  /** What the abuse middleware does with one request. */
  datatype MiddlewareOutcome =
    | Denied(status: int, error: string, details: Option<string>)
      // HTTPException 403; the downstream handler is not called
    | Forwarded(status: int, tracked: Option<string>)
      // the downstream response, and the failure reason recorded for it, if any
    | TrackingFault(status: int)
      // the downstream answered `status` and recording the failure raised

  /** What `rate_limit_handler` does: a 429, or the error raised while recording the failure. */
  datatype LimitOutcome =
    | TooManyRequests(status: int, error: string, details: string, retryAfter: int)
    | LimitTrackingFault

  /** The process-wide `_abuse_tracker` with its `ip` and `user` maps. */
  class AbuseTracker {
    var byIp: map<string, Entry>
    var byUser: map<string, Entry>

    constructor ()
      ensures byIp == map[] && byUser == map[]
    {
      byIp := map[];
      byUser := map[];
    }

    /** `track_failed_request`; `reason` only goes to the log. `fault` is the raised `KeyError`. */
    method TrackFailedRequest(id: Identity, now: real, reason: string) returns (fault: bool)
      modifies this
      ensures TrackOutcome(byIp, byUser, fault) == Track(old(byIp), old(byUser), id, now)
    {
      var ipStep := FailureStep(Lookup(byIp, id.ip), now);
      if ipStep.None? {
        return true;
      }
      byIp := byIp[id.ip := ipStep.value];
      if HasUser(id) {
        var userStep := FailureStep(Lookup(byUser, id.user.value), now);
        if userStep.None? {
          return true;
        }
        byUser := byUser[id.user.value := userStep.value];
      }
      return false;
    }

    /** `is_blocked`: a read of the two maps. */
    function IsBlocked(id: Identity): (r: (bool, Option<string>))
      reads this
      ensures r.0 <==> EntryBlocked(byIp, id.ip) || (HasUser(id) && EntryBlocked(byUser, id.user.value))
      ensures r.0 ==> r.1 == Some(if EntryBlocked(byIp, id.ip) then IpBlockedReason else UserBlockedReason)
      ensures !r.0 ==> r.1 == None
    {
      BlockStatus(byIp, byUser, id)
    }

    /**
     * `block_client`: blocks the IP, and the user when there is one, creating missing entries
     * and keeping existing counts; returns the unblock it schedules.
     */
    method BlockClient(id: Identity, durationSeconds: int := DefaultBlockSeconds) returns (task: UnblockTask)
      modifies this
      ensures byIp == old(byIp)[id.ip := BlockedEntry(Lookup(old(byIp), id.ip))]
      ensures HasUser(id) ==> byUser == old(byUser)[id.user.value := BlockedEntry(Lookup(old(byUser), id.user.value))]
      ensures !HasUser(id) ==> byUser == old(byUser)
      ensures task == UnblockTask(id.ip, id.user, durationSeconds)
    {
      byIp := byIp[id.ip := BlockedEntry(Lookup(byIp, id.ip))];
      if HasUser(id) {
        byUser := byUser[id.user.value := BlockedEntry(Lookup(byUser, id.user.value))];
      }
      task := UnblockTask(id.ip, id.user, durationSeconds);
    }

    /**
     * The scheduled unblock when it fires: clears the flag on the entries that exist, whatever
     * happened since, and leaves counts alone.
     */
    method RunUnblock(task: UnblockTask)
      modifies this
      ensures byIp == Unblocked(old(byIp), task.ip)
      ensures byUser == if Truthy(task.user) then Unblocked(old(byUser), task.user.value) else old(byUser)
    {
      byIp := Unblocked(byIp, task.ip);
      if Truthy(task.user) {
        byUser := Unblocked(byUser, task.user.value);
      }
    }

    /**
     * `abuse_detection_middleware`: a blocked client is denied with 403 before the downstream
     * handler runs; otherwise `downstreamStatus` is what the handler answers, and an answer of
     * 400 or more is recorded as failure `http_<status>`.
     */
    method AbuseDetection(id: Identity, now: real, downstreamStatus: int) returns (out: MiddlewareOutcome)
      modifies this
      ensures old(IsBlocked(id)).0 ==>
        out == Denied(403, "Access denied", old(IsBlocked(id)).1) && byIp == old(byIp) && byUser == old(byUser)
      ensures !old(IsBlocked(id)).0 && downstreamStatus < 400 ==>
        out == Forwarded(downstreamStatus, None) && byIp == old(byIp) && byUser == old(byUser)
      ensures !old(IsBlocked(id)).0 && downstreamStatus >= 400 ==>
        var t := Track(old(byIp), old(byUser), id, now);
        byIp == t.byIp && byUser == t.byUser
        && out == if t.fault then TrackingFault(downstreamStatus)
                  else Forwarded(downstreamStatus, Some("http_" + Text.IntToString(downstreamStatus)))
    {
      var status := IsBlocked(id);
      if status.0 {
        return Denied(403, "Access denied", status.1);
      }
      if downstreamStatus >= 400 {
        var reason := "http_" + Text.IntToString(downstreamStatus);
        var fault := TrackFailedRequest(id, now, reason);
        if fault {
          return TrackingFault(downstreamStatus);
        }
        return Forwarded(downstreamStatus, Some(reason));
      }
      return Forwarded(downstreamStatus, None);
    }

    /** `rate_limit_handler`: records `rate_limit_exceeded`, then answers 429. */
    method RateLimitHandler(id: Identity, now: real, retryAfter: int) returns (out: LimitOutcome)
      modifies this
      ensures var t := Track(old(byIp), old(byUser), id, now);
        byIp == t.byIp && byUser == t.byUser
        && out == if t.fault then LimitTrackingFault
                  else TooManyRequests(429, "Too many requests", "Rate limit exceeded. Please try again later.", retryAfter)
    {
      var fault := TrackFailedRequest(id, now, "rate_limit_exceeded");
      if fault {
        return LimitTrackingFault;
      }
      return TooManyRequests(429, "Too many requests", "Rate limit exceeded. Please try again later.", retryAfter);
    }
  }

  /** Failures at successive times applied to an entry, `None` once one faults. */
  function Failures(prev: Option<Entry>, times: seq<real>): Option<Entry>
    decreases |times|
  {
    if times == [] then prev
    else
      match FailureStep(prev, times[0])
      case None => None
      case Some(e) => Failures(Some(e), times[1..])
  }

  /**
   * Within one window the count goes up by one per failure and the block sets as soon as the
   * count reaches the threshold, never to be cleared by further failures.
   */
  lemma {:induction false} FailuresWithinWindow(e: Entry, first: real, times: seq<real>)
    requires e.firstSeen == Some(first)
    requires forall k :: 0 <= k < |times| ==> times[k] - first <= AbuseWindowSeconds
    ensures Failures(Some(e), times) ==
      Some(Entry(e.count + |times|, Some(first), e.blocked || (|times| > 0 && e.count + |times| >= AbuseThresholdCount)))
    decreases |times|
  {
    if times != [] {
      var next := FailureStep(Some(e), times[0]).value;
      assert next == Entry(e.count + 1, Some(first), e.blocked || e.count + 1 >= AbuseThresholdCount);
      FailuresWithinWindow(next, first, times[1..]);
    }
  }

  /**
   * From a fresh key, failures whose times all lie within 15 minutes of the first one block the
   * key exactly when there are at least 50 of them: 50 block, 49 do not.
   */
  lemma ThresholdWithinWindow(times: seq<real>)
    requires |times| > 0
    requires forall k :: 0 <= k < |times| ==> times[k] - times[0] <= AbuseWindowSeconds
    ensures Failures(None, times) == Some(Entry(|times|, Some(times[0]), |times| >= AbuseThresholdCount))
  {
    var e := Entry(1, Some(times[0]), false);
    assert FailureStep(None, times[0]) == Some(e);
    assert forall k :: 0 <= k < |times[1..]| ==> times[1..][k] == times[k + 1];
    FailuresWithinWindow(e, times[0], times[1..]);
  }

  /** A failure more than 15 minutes after the window opened restarts the count at 1. */
  lemma WindowResetOnLateFailure(e: Entry, first: real, now: real)
    requires e.firstSeen == Some(first) && now - first > AbuseWindowSeconds
    ensures FailureStep(Some(e), now) == Some(Entry(1, Some(now), e.blocked))
  {
  }

  /** Exactly 15 minutes after the window opened the failure still counts in that window. */
  lemma NoResetAtWindowEdge(e: Entry, first: real)
    requires e.firstSeen == Some(first)
    ensures FailureStep(Some(e), first + AbuseWindowSeconds).value.count == e.count + 1
  {
  }

  /**
   * An explicit block leaves entries without `first_seen`; once the scheduled unblock has run, the
   * next failure recorded for that IP raises instead of counting, and leaves the maps unchanged.
   */
  lemma FailureAfterExplicitBlockFaults(byIp: map<string, Entry>, byUser: map<string, Entry>, id: Identity, now: real)
    requires id.ip !in byIp
    ensures var blocked := byIp[id.ip := BlockedEntry(Lookup(byIp, id.ip))];
      var unblocked := Unblocked(blocked, id.ip);
      Track(unblocked, byUser, id, now) == TrackOutcome(unblocked, byUser, true)
  {
  }

  /**
   * Two overlapping explicit blocks of one IP: the unblock scheduled by the first clears the
   * second block too, since the unblock keeps no deadline.
   */
  lemma EarlierUnblockClearsLaterBlock(byIp: map<string, Entry>, ip: string)
    ensures var first := byIp[ip := BlockedEntry(Lookup(byIp, ip))];
      var second := first[ip := BlockedEntry(Lookup(first, ip))];
      !EntryBlocked(Unblocked(second, ip), ip)
  {
  }

  /**
   * Fifty server errors from one IP at the same moment, then a fifty-first request: the last is
   * denied with 403 before reaching the handler.
   */
  method FiftyServerErrorsThenDenied(ip: string, now: real) returns (out: MiddlewareOutcome)
    ensures out == Denied(403, "Access denied", Some(IpBlockedReason))
  {
    var tracker := new AbuseTracker();
    var id := Identity(ip, None);
    var i := 0;
    while i < 50
      invariant 0 <= i <= 50
      invariant i == 0 ==> tracker.byIp == map[]
      invariant i > 0 ==> tracker.byIp == map[ip := Entry(i, Some(now), i >= 50)]
      invariant tracker.byUser == map[]
    {
      var response := tracker.AbuseDetection(id, now, 500);
      i := i + 1;
    }
    out := tracker.AbuseDetection(id, now, 200);
  }
}
