/**
 * The reservation records the Tellabot client keeps, and every change made
 * to the list of them: the one-second countdown, the recomputation on
 * reload, an SMS arriving, a cancellation, and the records built from a
 * "request" reply. Each change is a map over the list, as in the source.
 */
module TellabotRecords {
  import opened Wrappers
  import TellabotForm

  datatype Mode = Waiting | Message | Expired

  /**
   * A record id as JavaScript holds it: `Number(item.id)` of a missing id is
   * NaN, which `===` never equates with anything; a record restored from
   * storage whose id was NaN holds `null` instead, which `===` equates with
   * every other `null`.
   */
  datatype NumId = Id(n: int) | NotANumber | Null

  /** `a === b` on record ids. */
  predicate SameId(a: NumId, b: NumId) {
    (a.Id? && b.Id? && a.n == b.n) || (a.Null? && b.Null?)
  }

  /** `Number(x)` of a value that is already a record id: `null` becomes 0. */
  function NumberOf(id: NumId): (m: NumId)
    ensures !m.Null?
    ensures id.Id? || id.NotANumber? ==> m == id
  {
    if id.Null? then Id(0) else id
  }

  /** A record id as `JSON.stringify` writes it and `JSON.parse` reads it back. */
  datatype JsonId = JsonNumber(n: int) | JsonNull

  /** `JSON.stringify` writes NaN (and `null`) as `null`. */
  function ToJsonId(id: NumId): JsonId {
    if id.Id? then JsonNumber(id.n) else JsonNull
  }

  function FromJsonId(j: JsonId): NumId {
    if j.JsonNumber? then Id(j.n) else Null
  }

  /** One reservation (`TellabotRequest`); times are milliseconds since the epoch. */
  datatype NumberRequest = NumberRequest(
    id: NumId,
    mdn: string,
    service: string,
    status: string,
    state: Option<string>,
    markup: int,
    price: int,
    carrier: Option<string>,
    tillExpiration: int,
    createdAt: int,
    expiresAt: int,
    remainingSeconds: int,
    mode: Mode,
    smsText: Option<string>)

  /** The persisted form of a record (`StoredTellabotRequest`): everything but the countdown. */
  datatype StoredRequest = StoredRequest(
    id: JsonId,
    mdn: string,
    service: string,
    status: string,
    state: Option<string>,
    markup: int,
    price: int,
    carrier: Option<string>,
    tillExpiration: int,
    createdAt: int,
    expiresAt: int,
    mode: Mode,
    smsText: Option<string>)

  /** The tracker's invariant for one record: a waiting reservation has time left. */
  predicate WaitingHasTime(r: NumberRequest) {
    r.mode == Waiting ==> r.remainingSeconds >= 1
  }

  predicate AllWaitingHaveTime(rs: seq<NumberRequest>) {
    forall i :: 0 <= i < |rs| ==> WaitingHasTime(rs[i])
  }

  /** The two records agree on every field but the countdown and the mode. */
  predicate SameButCountdown(a: NumberRequest, b: NumberRequest) {
    a.(remainingSeconds := 0, mode := Waiting) == b.(remainingSeconds := 0, mode := Waiting)
  }

  function Max(a: int, b: int): int { if a < b then b else a }

  // ---------------------------------------------------------------------
  // The one-second countdown.

  /** One second of countdown for one record. */
  function TickOne(r: NumberRequest): (t: NumberRequest)
    ensures r.mode != Waiting ==> t == r
    ensures r.mode == Waiting ==>
      t.remainingSeconds == Max(0, r.remainingSeconds - 1)
      && (t.mode == Expired <==> r.remainingSeconds - 1 <= 0)
      && t.mode != Message
    ensures SameButCountdown(t, r) && WaitingHasTime(t)
  {
    if r.mode != Waiting then r
    else
      var next := r.remainingSeconds - 1;
      r.(remainingSeconds := if next <= 0 then 0 else next,
         mode := if next <= 0 then Expired else Waiting)
  }

  /** The countdown interval's update of the whole list. */
  function TickAll(rs: seq<NumberRequest>): (ts: seq<NumberRequest>)
    ensures |ts| == |rs| && AllWaitingHaveTime(ts)
  {
    seq(|rs|, i requires 0 <= i < |rs| => TickOne(rs[i]))
  }

  /** `k` seconds of countdown. */
  function Ticks(r: NumberRequest, k: nat): NumberRequest {
    if k == 0 then r else TickOne(Ticks(r, k - 1))
  }

  /**
   * A waiting record with `n` seconds left is still waiting with `n - k`
   * seconds after `k < n` ticks, and is expired with nothing left from the
   * `n`-th tick on; it never receives a message from ticking.
   */
  lemma {:induction false} TicksUntilExpiry(r: NumberRequest, k: nat)
    requires r.mode == Waiting && r.remainingSeconds >= 1
    ensures SameButCountdown(Ticks(r, k), r)
    ensures k < r.remainingSeconds ==>
      Ticks(r, k).mode == Waiting && Ticks(r, k).remainingSeconds == r.remainingSeconds - k
    ensures k >= r.remainingSeconds ==>
      Ticks(r, k).mode == Expired && Ticks(r, k).remainingSeconds == 0
  {
    if k > 0 {
      TicksUntilExpiry(r, k - 1);
    }
  }

  // ---------------------------------------------------------------------
  // Persistence and restore.

  /** The projection written to storage on every change. */
  function ToStored(r: NumberRequest): StoredRequest {
    StoredRequest(ToJsonId(r.id), r.mdn, r.service, r.status, r.state, r.markup, r.price, r.carrier,
                  r.tillExpiration, r.createdAt, r.expiresAt, r.mode, r.smsText)
  }

  function Snapshot(rs: seq<NumberRequest>): (ss: seq<StoredRequest>)
    ensures |ss| == |rs|
  {
    seq(|rs|, i requires 0 <= i < |rs| => ToStored(rs[i]))
  }

  /**
   * A stored record brought back at time `now`: the countdown is the whole
   * seconds left until `expiresAt` (`Math.floor`, never below 0), and a
   * waiting record with nothing left is expired.
   */
  function RestoreOne(s: StoredRequest, now: int): (r: NumberRequest)
    ensures r.remainingSeconds >= 0
    ensures s.expiresAt - now < 1000 ==> r.remainingSeconds == 0
    ensures s.expiresAt - now >= 1000 ==>
      r.remainingSeconds * 1000 <= s.expiresAt - now < (r.remainingSeconds + 1) * 1000
    ensures r.mode == (if s.mode == Waiting && r.remainingSeconds == 0 then Expired else s.mode)
    ensures ToStored(r) == s.(mode := r.mode)
    ensures WaitingHasTime(r)
  {
    // JavaScript's Math.floor of the quotient; Dafny's `/` floors for a positive divisor
    var remaining := Max(0, (s.expiresAt - now) / 1000);
    var mode := if remaining <= 0 && s.mode == Waiting then Expired else s.mode;
    NumberRequest(FromJsonId(s.id), s.mdn, s.service, s.status, s.state, s.markup, s.price, s.carrier,
                  s.tillExpiration, s.createdAt, s.expiresAt, remaining, mode, s.smsText)
  }

  function RestoreAll(ss: seq<StoredRequest>, now: int): (rs: seq<NumberRequest>)
    ensures |rs| == |ss| && AllWaitingHaveTime(rs)
  {
    seq(|ss|, i requires 0 <= i < |ss| => RestoreOne(ss[i], now))
  }

  /** The id a record holds after it is saved and reloaded: NaN comes back as `null`. */
  function ReloadedId(id: NumId): (b: NumId)
    ensures b.Id? <==> id.Id?
    ensures id.Id? ==> b == id
  {
    FromJsonId(ToJsonId(id))
  }

  /**
   * Saving and reloading keeps every record in place with all its fields
   * except the id, where NaN becomes `null`, the countdown, which is
   * recomputed, and the mode, which changes only from waiting to expired: a
   * record is never brought back to waiting.
   */
  lemma PersistRoundTrip(rs: seq<NumberRequest>, now: int)
    ensures |RestoreAll(Snapshot(rs), now)| == |rs|
    ensures forall i :: 0 <= i < |rs| ==>
      var back := RestoreAll(Snapshot(rs), now)[i];
      back.id == (if rs[i].id.NotANumber? then Null else rs[i].id)
      && SameButCountdown(back, rs[i].(id := back.id))
      && (back.mode == rs[i].mode || (rs[i].mode == Waiting && back.mode == Expired))
      && (back.mode == Waiting ==> back.remainingSeconds >= 1)
  {
    forall i | 0 <= i < |rs|
      ensures var back := RestoreAll(Snapshot(rs), now)[i];
        back.id == ReloadedId(rs[i].id)
        && SameButCountdown(back, rs[i].(id := back.id))
        && (back.mode == rs[i].mode || (rs[i].mode == Waiting && back.mode == Expired))
    {
      var back := RestoreOne(ToStored(rs[i]), now);
      assert ToStored(back) == ToStored(rs[i]).(mode := back.mode);
    }
  }

  /**
   * After a reload two records have the same id exactly when they had
   * before, or neither had a numeric id: the NaN ids of records the
   * provider gave no id to all come back as `null`, and `null === null`.
   */
  lemma {:induction false} ReloadedIdsMatch(a: NumId, b: NumId)
    ensures SameId(ReloadedId(a), ReloadedId(b)) <==> SameId(a, b) || (!a.Id? && !b.Id?)
  {
    if a.Id? && b.Id? {
      assert ReloadedId(a) == a && ReloadedId(b) == b;
    } else if !a.Id? && !b.Id? {
      assert ReloadedId(a) == Null && ReloadedId(b) == Null;
    }
  }

  /**
   * Two records reserved without a provider id share no SMS before a
   * reload, but after it a message polled for one of them is stored in both.
   */
  lemma NaNIdsMergeOnReload(r1: NumberRequest, r2: NumberRequest, text: string, now: int)
    requires r1.id.NotANumber? && r2.id.NotANumber?
    requires r1.mode == Waiting && r2.mode == Waiting && r1.smsText.None? && r2.smsText.None?
    ensures ReceiveSms([r1, r2], r1.id, text) == [r1, r2]
    ensures var back := RestoreAll(Snapshot([r1, r2]), now);
      ReceiveSms(back, back[0].id, text)[1].mode == Message
      && ReceiveSms(back, back[0].id, text)[1].smsText == Some(text)
  {
    var before := ReceiveSms([r1, r2], r1.id, text);
    assert before[0] == r1 && before[1] == r2;
    var back := RestoreAll(Snapshot([r1, r2]), now);
    assert back[1] == RestoreOne(ToStored(r2), now);
    assert back[0].id == Null && back[1].id == Null;
    assert SameId(back[1].id, back[0].id);
  }

  // ---------------------------------------------------------------------
  // Replies from the relay.

  /**
   * What the client gets back from one relay call: the call itself failed
   * (a network or JSON error, caught by the handler), the provider reported
   * an error with an optional message, or it succeeded with a payload that
   * is an array of items or (`None`) something else.
   */
  datatype Reply<T> = CallFailed | ErrorStatus(message: Option<string>) | OkStatus(payload: Option<seq<T>>)

  /** The first item of a successful reply, when there is one. */
  function FirstItem<T>(reply: Reply<T>): Option<T> {
    if reply.OkStatus? && reply.payload.Some? && |reply.payload.value| > 0
    then Some(reply.payload.value[0])
    else None
  }

  /** One message of a `read_sms` reply; absent fields are `None`. */
  datatype SmsItem = SmsItem(reply: Option<string>, pin: Option<string>)

  /**
   * The `id` of a provider item: absent, JSON `null`, a value `Number` turns
   * into an integer, or one it turns into NaN.
   */
  datatype ItemId = Missing | NullItemId | Numeric(n: int) | NonNumeric

  /** One item of a `request` reply, with the other numeric fields already converted. */
  datatype ProviderItem = ProviderItem(
    id: ItemId,
    mdn: Option<string>,
    service: Option<string>,
    state: Option<string>,
    markup: Option<int>,
    price: Option<int>,
    carrier: Option<string>,
    tillExpiration: Option<int>,
    status: Option<string>)

  /** `x ? String(x) : ...` for an optional string: present and non-empty. */
  predicate Given(o: Option<string>) { o.Some? && o.value != "" }

  // ---------------------------------------------------------------------
  // An SMS arriving.

  /** The text a `read_sms` message is stored as. */
  function MessageText(m: SmsItem): string {
    TellabotForm.SmsText(m.reply.GetOr(""), if Given(m.pin) then m.pin.value else "")
  }

  /** The poll result applied to the list: every record with the polled id holds the message. */
  function ReceiveSms(rs: seq<NumberRequest>, id: NumId, text: string): (ts: seq<NumberRequest>)
    ensures |ts| == |rs|
    ensures forall i :: 0 <= i < |rs| ==>
      if SameId(rs[i].id, id)
      then ts[i] == rs[i].(mode := Message, smsText := Some(text))
      else ts[i] == rs[i]
    ensures AllWaitingHaveTime(rs) ==> AllWaitingHaveTime(ts)
  {
    seq(|rs|, i requires 0 <= i < |rs| =>
      if SameId(rs[i].id, id) then rs[i].(mode := Message, smsText := Some(text)) else rs[i])
  }

  // ---------------------------------------------------------------------
  // Cancellation.

  const CancelledText := "Number cancelled."

  /** A successful `reject` applied to the list: every record with that id is expired. */
  function CancelById(rs: seq<NumberRequest>, id: NumId): (ts: seq<NumberRequest>)
    ensures |ts| == |rs|
    ensures forall i :: 0 <= i < |rs| ==>
      if SameId(rs[i].id, id)
      then ts[i] == rs[i].(mode := Expired, remainingSeconds := 0, smsText := Some(CancelledText))
      else ts[i] == rs[i]
    ensures AllWaitingHaveTime(rs) ==> AllWaitingHaveTime(ts)
  {
    seq(|rs|, i requires 0 <= i < |rs| =>
      if SameId(rs[i].id, id)
      then rs[i].(mode := Expired, remainingSeconds := 0, smsText := Some(CancelledText))
      else rs[i])
  }

  // ---------------------------------------------------------------------
  // New records.

  /** `x || undefined` for a string: a present, non-empty value or nothing. */
  function NonEmpty(o: Option<string>): Option<string> {
    if Given(o) then o else None
  }

  /** The record built from the first item of a successful "request" reply. */
  function NewRequest(item: ProviderItem, serviceName: string, now: int): (r: NumberRequest)
  {
    var tillExp := item.tillExpiration.GetOr(0);
    NumberRequest(
      match item.id
      case Missing => NotANumber
      case NullItemId => Id(0)
      case Numeric(n) => Id(n)
      case NonNumeric => NotANumber,
      item.mdn.GetOr(""),
      item.service.GetOr(serviceName),
      item.status.GetOr("Reserved"),
      NonEmpty(item.state),
      item.markup.GetOr(0),
      item.price.GetOr(0),
      NonEmpty(item.carrier),
      tillExp,
      now,
      now + tillExp * 1000,
      tillExp,
      if tillExp > 0 then Waiting else Expired,
      None)
  }

  /**
   * The record built when a received number is requested again: the
   * provider's fields where it gives them, the source record's otherwise,
   * and always the source's service.
   */
  function Reactivated(item: ProviderItem, source: NumberRequest, now: int): (r: NumberRequest)
  {
    var tillExp := item.tillExpiration.GetOr(0);
    NumberRequest(
      match item.id
      case Numeric(n) => Id(n)
      case NonNumeric => NotANumber
      case _ => NumberOf(source.id),
      item.mdn.GetOr(source.mdn),
      source.service,
      item.status.GetOr("Reserved"),
      if Given(item.state) then item.state else source.state,
      item.markup.GetOr(source.markup),
      item.price.GetOr(source.price),
      if Given(item.carrier) then item.carrier else source.carrier,
      tillExp,
      now,
      now + tillExp * 1000,
      tillExp,
      if tillExp > 0 then Waiting else Expired,
      None)
  }

  /** The countdown fields every freshly created record starts with. */
  predicate FreshCountdown(r: NumberRequest, tillExp: int, now: int) {
    r.tillExpiration == tillExp && r.remainingSeconds == tillExp
    && r.createdAt == now && r.expiresAt == now + 1000 * tillExp
    && (r.mode == Waiting <==> tillExp > 0) && r.mode != Message
    && r.smsText == None && WaitingHasTime(r)
  }

  /**
   * A new or reactivated record counts down the provider's time to live
   * (0 when it gives none) from `now`, starts waiting exactly when that is
   * positive and expired otherwise, and has no SMS yet.
   */
  lemma NewRecordsCountDown(item: ProviderItem, serviceName: string, source: NumberRequest, now: int)
    ensures FreshCountdown(NewRequest(item, serviceName, now), item.tillExpiration.GetOr(0), now)
    ensures FreshCountdown(Reactivated(item, source, now), item.tillExpiration.GetOr(0), now)
    ensures NewRequest(item, serviceName, now).service == item.service.GetOr(serviceName)
    ensures Reactivated(item, source, now).service == source.service
  {
  }

  /**
   * When the provider omits the id, the reactivated record takes the source
   * record's id, so a later cancellation of the new reservation also expires
   * the source record and replaces its SMS text.
   */
  lemma ReactivateMayShareId(item: ProviderItem, source: NumberRequest, now: int)
    requires (item.id.Missing? || item.id.NullItemId?) && source.id.Id?
    ensures SameId(Reactivated(item, source, now).id, source.id)
    ensures var after := CancelById([Reactivated(item, source, now), source], source.id);
      after[1].mode == Expired && after[1].smsText == Some(CancelledText)
  {
    var rs := [Reactivated(item, source, now), source];
    assert SameId(rs[1].id, source.id);
  }

  /**
   * The id of a new record is `Number(item.id)`: NaN when the item has none
   * or a non-numeric one, and 0 for JSON `null`. A reactivated record
   * falls back to the source's id when the item's is `null` or missing,
   * where a source restored with a `null` id gives 0.
   */
  lemma NewRecordIds(item: ProviderItem, serviceName: string, source: NumberRequest, now: int)
    ensures NewRequest(item, serviceName, now).id ==
      (if item.id.Numeric? then Id(item.id.n) else if item.id.NullItemId? then Id(0) else NotANumber)
    ensures item.id.Numeric? ==> Reactivated(item, source, now).id == Id(item.id.n)
    ensures item.id.NonNumeric? ==> Reactivated(item, source, now).id == NotANumber
    ensures item.id.Missing? || item.id.NullItemId? ==>
      Reactivated(item, source, now).id == (if source.id.Null? then Id(0) else source.id)
  {
  }

  // ---------------------------------------------------------------------
  // The life cycle of one record.

  /**
   * Only a freshly created record can be waiting: ticking, reloading,
   * receiving an SMS and cancelling never make a record wait that was not
   * waiting before, and ticking, reloading and cancelling keep an expired
   * record expired.
   */
  lemma NoChangeStartsWaiting(r: NumberRequest, id: NumId, text: string, now: int)
    ensures TickOne(r).mode == Waiting ==> r.mode == Waiting
    ensures RestoreOne(ToStored(r), now).mode == Waiting ==> r.mode == Waiting
    ensures ReceiveSms([r], id, text)[0].mode == Waiting ==> r.mode == Waiting
    ensures CancelById([r], id)[0].mode == Waiting ==> r.mode == Waiting
    ensures r.mode == Expired ==>
      TickOne(r).mode == Expired && RestoreOne(ToStored(r), now).mode == Expired
      && CancelById([r], id)[0].mode == Expired
  {
  }

  /**
   * An SMS reply that arrives for an id whose record has meanwhile expired or
   * been cancelled still moves that record to `message`: receiving an SMS
   * does not look at the current mode.
   */
  lemma LateSmsRevivesExpired(r: NumberRequest, text: string)
    requires r.mode == Expired && r.id.Id?
    ensures ReceiveSms([r], r.id, text)[0].mode == Message
    ensures ReceiveSms([r], r.id, text)[0].smsText == Some(text)
  {
    assert SameId(r.id, r.id);
  }
}
