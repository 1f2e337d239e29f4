/** Global and per-account reset times, and the cutoff from which events count. */
module StatsReset {
  import opened Wrappers
  import opened IstTime
  import opened Sequences

  const ROLLING_WINDOW := DAY
  const MIN_RESET_INTERVAL := 2 * SECOND
  const GLOBAL_KEY := "__global__"

  /** The reset file. A time that is not positive reads as no reset.
      An account id of "" stands for no account, that is, the global reset. */
  datatype Resets = Resets(globalTs: int, perAccount: map<string, int>)

  datatype ResetError = Debounced

  datatype AutoReset =
    | GlobalScope(accounts: seq<string>, at: int)
    | AccountScope(accounts: seq<string>, at: int)

  const NO_RESETS := Resets(0, map[])

  function ParseTs(raw: int): Option<int> {
    if raw > 0 then Some(raw) else None
  }

  function AccountTs(r: Resets, account: string): Option<int> {
    if account in r.perAccount then ParseTs(r.perAccount[account]) else None
  }

  function ActiveResetTimestamp(r: Resets, account: string, now: int): Option<int> {
    var dayStart := DayStart(now);
    var per := if account != "" then AccountTs(r, account) else None;
    if per.Some? && per.value >= dayStart then per
    else
      var whole := ParseTs(r.globalTs);
      if whole.Some? && whole.value >= dayStart then whole else None
  }

  function EffectiveCutoff(r: Resets, account: string, now: int): int {
    var dayStart := DayStart(now);
    match ActiveResetTimestamp(r, account, now)
    case Some(manual) => if manual > dayStart then manual else dayStart
    case None => dayStart
  }

  /** What a run of resets at the current time maintains: no reset lies in the future,
      and every account entry is at or after the global one. */
  ghost predicate Valid(r: Resets, now: int) {
    && now >= DAY
    && r.globalTs <= now
    && "" !in r.perAccount
    && forall a :: a in r.perAccount ==> r.globalTs <= r.perAccount[a] <= now
  }

  function Max(a: int, b: int): int {
    if a > b then a else b
  }

  /** The branches of the cutoff amount to the latest of the three candidate times. */
  lemma CutoffIsLatest(r: Resets, account: string, now: int)
    requires Valid(r, now)
    ensures EffectiveCutoff(r, account, now) ==
            Max(DayStart(now), Max(r.globalTs, if account in r.perAccount then r.perAccount[account] else r.globalTs))
    ensures DayStart(now) <= EffectiveCutoff(r, account, now) <= now
    ensures EffectiveCutoff(r, "", now) <= EffectiveCutoff(r, account, now)
  {
  }

  /** Writing a reset: an account reset touches one entry, a global reset drops every entry. */
  function WriteReset(r: Resets, ts: int, account: string): Resets {
    if account != "" then r.(perAccount := r.perAccount[account := ts]) else Resets(ts, map[])
  }

  predicate Elapsed(ts: Option<int>, now: int) {
    ts.Some? && now - ts.value >= ROLLING_WINDOW
  }

  function IsDue(r: Resets, now: int): string -> bool {
    (account: string) => Elapsed(AccountTs(r, account), now)
  }

  /** The accounts whose own period is over, in the order given. */
  function DueAccounts(r: Resets, slots: seq<string>, now: int): seq<string> {
    Filter(slots, IsDue(r, now))
  }

  function AutoResetOutcome(r: Resets, slots: seq<string>, now: int): Option<AutoReset> {
    if slots == [] then None
    else if Elapsed(ParseTs(r.globalTs), now) then Some(GlobalScope(slots, now))
    else if DueAccounts(r, slots, now) == [] then None
    else Some(AccountScope(DueAccounts(r, slots, now), now))
  }

  /** An automatic rollover restarts everything at once, or else exactly the due accounts. */
  function AutoReseted(r: Resets, slots: seq<string>, now: int): Resets {
    match AutoResetOutcome(r, slots, now)
    case None => r
    case Some(GlobalScope(_, _)) => Resets(now, map[])
    case Some(AccountScope(due, _)) =>
      Resets(r.globalTs, map a | a in r.perAccount :: if a in due then now else r.perAccount[a])
  }

  /** The debounce clock restarts for whatever a rollover has reset. */
  function AutoLastReset(last: map<string, int>, outcome: Option<AutoReset>, now: int): map<string, int> {
    match outcome
    case None => last
    case Some(GlobalScope(_, _)) => last[GLOBAL_KEY := now]
    case Some(AccountScope(due, _)) =>
      map k | k in last.Keys + (set a | a in due) :: if k in due then now else last[k]
  }

  function DebounceKey(account: string): string {
    if account != "" then account else GLOBAL_KEY
  }

  predicate TooSoon(last: map<string, int>, account: string, now: int) {
    now - (if DebounceKey(account) in last then last[DebounceKey(account)] else 0) < MIN_RESET_INTERVAL
  }

  class StatsResetStore {
    var data: Resets
    var lastResetByKey: map<string, int>

    constructor ()
      ensures data == NO_RESETS && lastResetByKey == map[]
    {
      data := NO_RESETS;
      lastResetByKey := map[];
    }

    method SetResetTimestamp(now: int, ts: Option<int>, account: string, skipDebounce: bool)
      returns (result: Result<int, ResetError>)
      modifies this
      ensures var at := if ts.Some? then ts.value else now;
              if !skipDebounce && TooSoon(old(lastResetByKey), account, now) then
                result == Err(Debounced) && data == old(data) && lastResetByKey == old(lastResetByKey)
              else
                && result == Ok(at)
                && data == WriteReset(old(data), at, account)
                && lastResetByKey == old(lastResetByKey)[DebounceKey(account) := now]
    {
      var at := if ts.Some? then ts.value else now;
      var key := DebounceKey(account);
      if !skipDebounce {
        var last := if key in lastResetByKey then lastResetByKey[key] else 0;
        if now - last < MIN_RESET_INTERVAL {
          return Err(Debounced);
        }
      }
      WriteResetTimestamp(at, account);
      lastResetByKey := lastResetByKey[key := now];
      result := Ok(at);
    }

    method WriteResetTimestamp(ts: int, account: string)
      modifies this`data
      ensures data == WriteReset(old(data), ts, account)
    {
      if account != "" {
        data := data.(perAccount := data.perAccount[account := ts]);
      } else {
        data := Resets(ts, map[]);
      }
    }

    method MaybeAutoReset24h(now: int, slots: seq<string>) returns (result: Option<AutoReset>)
      requires "" !in data.perAccount
      modifies this
      ensures result == AutoResetOutcome(old(data), slots, now)
      ensures data == AutoReseted(old(data), slots, now)
      ensures lastResetByKey == AutoLastReset(old(lastResetByKey), result, now)
    {
      if slots == [] {
        return None;
      }
      var global := ParseTs(data.globalTs);
      if Elapsed(global, now) {
        WriteResetTimestamp(now, "");
        lastResetByKey := lastResetByKey[GLOBAL_KEY := now];
        return Some(GlobalScope(slots, now));
      }
      var due := CollectDue(data, slots, now);
      if due == [] {
        return None;
      }
      FilterMembers(slots, IsDue(data, now));
      RollOver(due, now);
      result := Some(AccountScope(due, now));
    }

    /** Restarts the period of each due account. */
    method RollOver(due: seq<string>, now: int)
      requires forall a :: a in due ==> a != "" && a in data.perAccount
      modifies this
      ensures data.globalTs == old(data).globalTs
      ensures data.perAccount == map a | a in old(data).perAccount :: if a in due then now else old(data).perAccount[a]
      ensures lastResetByKey ==
              map k | k in old(lastResetByKey).Keys + (set a | a in due) ::
                  if k in due then now else old(lastResetByKey)[k]
    {
      for i := 0 to |due|
        invariant data.globalTs == old(data).globalTs
        invariant data.perAccount.Keys == old(data).perAccount.Keys
        invariant forall a :: a in data.perAccount ==>
                    data.perAccount[a] == if a in due[..i] then now else old(data).perAccount[a]
        invariant forall k :: k in lastResetByKey <==> k in old(lastResetByKey) || k in due[..i]
        invariant forall k :: k in lastResetByKey ==>
                    lastResetByKey[k] == if k in due[..i] then now else old(lastResetByKey)[k]
      {
        assert due[..i + 1] == due[..i] + [due[i]];
        assert due[i] in due;
        WriteResetTimestamp(now, due[i]);
        lastResetByKey := lastResetByKey[due[i] := now];
      }
      assert due[..|due|] == due;
    }
  }

  method CollectDue(r: Resets, slots: seq<string>, now: int) returns (due: seq<string>)
    ensures due == DueAccounts(r, slots, now)
  {
    due := [];
    for i := 0 to |slots|
      invariant due == DueAccounts(r, slots[..i], now)
    {
      FilterSnoc(slots[..i], slots[i], IsDue(r, now));
      assert slots[..i + 1] == slots[..i] + [slots[i]];
      if Elapsed(AccountTs(r, slots[i]), now) {
        due := due + [slots[i]];
      }
    }
    assert slots[..|slots|] == slots;
  }

  /** Any reset at the current time, and the passing of time, keep the file valid. */
  lemma ResetKeepsValid(r: Resets, now: int, account: string)
    requires Valid(r, now)
    ensures Valid(WriteReset(r, now, account), now)
  {
  }

  lemma AutoResetKeepsValid(r: Resets, now: int, slots: seq<string>)
    requires Valid(r, now)
    ensures Valid(AutoReseted(r, slots, now), now)
  {
  }

  /** The account has a reset on file that is 24 hours old. */
  predicate DayOld(r: Resets, account: string, now: int) {
    account in r.perAccount && r.perAccount[account] > 0 && now - r.perAccount[account] >= 24 * HOUR
  }

  /** Main result on rollovers. With a global reset that is 24 hours old everything restarts; otherwise
      exactly the listed accounts restart whose own reset is 24 hours old, and with none the poll changes
      nothing and reports nothing. */
  lemma {:induction false} RolloverIff(r: Resets, slots: seq<string>, now: int)
    ensures var v, outcome := AutoReseted(r, slots, now), AutoResetOutcome(r, slots, now);
            if slots != [] && r.globalTs > 0 && now - r.globalTs >= 24 * HOUR then
              v == Resets(now, map[]) && outcome == Some(GlobalScope(slots, now))
            else
              && v.globalTs == r.globalTs && v.perAccount.Keys == r.perAccount.Keys
              && (forall a :: a in r.perAccount ==>
                    v.perAccount[a] == if a in slots && DayOld(r, a, now) then now else r.perAccount[a])
              && (outcome == None <==> forall a :: a in slots ==> !DayOld(r, a, now))
              && (outcome != None ==>
                    && outcome.value.AccountScope? && outcome.value.at == now
                    && forall a :: a in outcome.value.accounts <==> a in slots && DayOld(r, a, now))
              && (outcome == None ==> v == r)
  {
    FilterMembers(slots, IsDue(r, now));
    var due := DueAccounts(r, slots, now);
    assert forall a :: IsDue(r, now)(a) <==> DayOld(r, a, now);
    assert forall a :: a in due <==> a in slots && DayOld(r, a, now);
    assert due == [] || due[0] in due;
  }

  /** A reset at the present time moves the cutoff of the account, or of all, to now, and no other. */
  lemma {:induction false} ResetMovesCutoffToNow(r: Resets, now: int, account: string, any: string)
    requires Valid(r, now)
    ensures EffectiveCutoff(WriteReset(r, now, account), any, now) ==
            if account == "" || any == account then now else EffectiveCutoff(r, any, now)
  {
    ResetKeepsValid(r, now, account);
    CutoffIsLatest(r, any, now);
    CutoffIsLatest(WriteReset(r, now, account), any, now);
  }

  /** Resets of one account are refused for two seconds; other accounts do not wait for it. */
  lemma {:induction false} DebounceIsPerAccount(last: map<string, int>, account: string, at: int, other: string,
      now: int)
    requires account != GLOBAL_KEY && other != GLOBAL_KEY
    ensures TooSoon(last[DebounceKey(account) := at], account, now) <==> now - at < 2000
    ensures other != account ==>
              (TooSoon(last[DebounceKey(account) := at], other, now) <==> TooSoon(last, other, now))
  {
  }

  /** A rollover starts the two seconds of what it restarts, all or the due accounts, and of nothing else. */
  lemma {:induction false} RolloverDebounces(last: map<string, int>, r: Resets, slots: seq<string>, account: string,
      now: int, later: int)
    requires "" !in r.perAccount && account != GLOBAL_KEY && GLOBAL_KEY !in r.perAccount
    ensures var whole := slots != [] && r.globalTs > 0 && now - r.globalTs >= 24 * HOUR;
            var started := if whole then account == "" else account in slots && DayOld(r, account, now);
            TooSoon(AutoLastReset(last, AutoResetOutcome(r, slots, now), now), account, later) <==>
            if started then later - now < 2000 else TooSoon(last, account, later)
  {
    RolloverIff(r, slots, now);
  }

  /** No reset at the current time moves any cutoff back; neither does time, midnight included. */
  lemma CutoffNeverMovesBack(r: Resets, now: int, later: int, account: string, slots: seq<string>, any: string)
    requires Valid(r, now) && now <= later
    ensures EffectiveCutoff(r, any, now) <= EffectiveCutoff(r, any, later)
    ensures EffectiveCutoff(r, any, now) <= EffectiveCutoff(WriteReset(r, now, account), any, now)
    ensures EffectiveCutoff(r, any, now) <= EffectiveCutoff(AutoReseted(r, slots, now), any, now)
  {
    ResetKeepsValid(r, now, account);
    AutoResetKeepsValid(r, now, slots);
    DayStartSplitsDates(now, later);
    CutoffIsLatest(r, any, now);
    CutoffIsLatest(r, any, later);
    CutoffIsLatest(WriteReset(r, now, account), any, now);
    CutoffIsLatest(AutoReseted(r, slots, now), any, now);
  }

  /** A reset to an explicit time can move a cutoff back. For an account it does not exactly
      when the time is at or after the account's cutoff, or lies on an earlier day (and so is
      ignored) while the global cutoff already is the account's. */
  lemma ExplicitResetKeepsCutoffIff(r: Resets, now: int, ts: int, account: string)
    requires Valid(r, now) && account != ""
    ensures EffectiveCutoff(r, account, now) <= EffectiveCutoff(WriteReset(r, ts, account), account, now) <==>
            || EffectiveCutoff(r, account, now) <= ts
            || (ts < DayStart(now) && EffectiveCutoff(r, account, now) == EffectiveCutoff(r, "", now))
  {
    CutoffIsLatest(r, account, now);
    CutoffIsLatest(r, "", now);
  }

  /** A global reset to an explicit time moves no cutoff back exactly when every reset on file,
      global or not, is no later than that time or the day start. */
  lemma {:induction false} ExplicitGlobalResetKeepsCutoffsIff(r: Resets, now: int, ts: int)
    requires Valid(r, now)
    ensures (forall a :: EffectiveCutoff(r, a, now) <= EffectiveCutoff(WriteReset(r, ts, ""), a, now)) <==>
            && r.globalTs <= Max(ts, DayStart(now))
            && forall a :: a in r.perAccount ==> r.perAccount[a] <= Max(ts, DayStart(now))
  {
    forall a
      ensures EffectiveCutoff(WriteReset(r, ts, ""), a, now) == Max(ts, DayStart(now))
    {
    }
    forall a
      ensures EffectiveCutoff(r, a, now) ==
              Max(DayStart(now), Max(r.globalTs, if a in r.perAccount then r.perAccount[a] else r.globalTs))
    {
      CutoffIsLatest(r, a, now);
    }
    assert EffectiveCutoff(r, "", now) == Max(DayStart(now), r.globalTs);
  }
}
