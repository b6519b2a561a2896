/** What the event-sourced engine leaves in its log, and what a query by order gives back of it,
    told by the payloads and numbers of the events alone. */
module EventAnswers {
  import opened Orders
  import opened Matching
  import opened Market
  import opened MarketTotals
  import opened EventRuns
  import opened Events
  import opened EventLog

  // ---- Sessions -----------------------------------------------------------------------------

  /** An order without positive price and quantity leaves one event, of its rejection, and nothing else; any
      other leaves its placed event next. */
  lemma AcceptsExactly(s: Session, o: Ord)
    requires Numbered(s.log)
    ensures var s', next := ProcessEs(s, o), |s.log| + 1; var time := 1609459200000000000 + next;
      if o.price <= 0 || o.quantity <= 0 then
        s'.desk == s.desk && s'.log == s.log + [Event(OrderRejected(o.id, o.user, "Validation failed"), next, time, 0)]
      else
        && |s'.log| > |s.log| && s'.log[..|s.log|] == s.log
        && s'.log[|s.log|] == Event(OrderPlaced(o.id, o.user, o.side, o.typ, o.price, o.quantity), next, time,
             o.instrument)
  {
    if Admissible(o) { OrderAudited(s, o); } else { NumberedLatest(s.log); }
  }

  /** The trade has its matched event under its number, by taker and maker, and right behind it its executed event. */
  ghost predicate TradeLogged(log: seq<Event>, t: Trade) {
    exists j :: 0 <= j < |log| - 1 && LoggedAt(log, t, j)
  }

  ghost predicate LoggedAt(log: seq<Event>, t: Trade, j: nat)
    requires j + 1 < |log|
  {
    var taker, maker := if t.takerBuy then t.buyId else t.sellId, if t.takerBuy then t.sellId else t.buyId;
    && log[j] == Event(OrderMatched(taker, maker, t.price, t.quantity), t.sequence, t.timestamp, 0)
    && log[j + 1] == Event(TradeExecuted(t), t.sequence + 1, t.timestamp + 1, t.instrument)
  }

  lemma LoggedStays(log: seq<Event>, log': seq<Event>, t: Trade)
    requires |log| <= |log'| && log'[..|log|] == log && TradeLogged(log, t)
    ensures TradeLogged(log', t)
  {
    var j :| 0 <= j < |log| - 1 && LoggedAt(log, t, j);
    assert log'[j] == log[j] && log'[j + 1] == log[j + 1];
    assert LoggedAt(log', t, j);
  }

  lemma OrderLogged(s: Session, o: Ord, i: nat)
    requires Numbered(s.log) && Admissible(o) && i < |DeskMatch(s.desk, At(o, |s.log| + 1)).fills|
    ensures var f := DeskMatch(s.desk, At(o, |s.log| + 1)).fills;
      TradeLogged(ProcessEs(s, o).log, DeskTrades(true, At(o, |s.log| + 1), f)[i])
  {
    var n, a := |s.log| + 1, At(o, |s.log| + 1);
    var f, log' := DeskMatch(s.desk, a).fills, ProcessEs(s, o).log;
    OrderAudited(s, o);
    assert Audited(log', n, a, f[i], i);
    assert LoggedAt(log', DeskTrades(true, a, f)[i], n + 2 * i);
  }

  /** Every trade of a session is in its log. */
  lemma {:induction false} TradesLogged(rs: seq<Request>, k: nat)
    requires k < |SessionRun(rs).desk.trades|
    ensures TradeLogged(SessionRun(rs).log, SessionRun(rs).desk.trades[k])
  {
    if rs != [] {
      var s, r := SessionRun(rs[..|rs| - 1]), rs[|rs| - 1];
      RunNumbered(rs[..|rs| - 1]);
      if k < |s.desk.trades| { TradesLogged(rs[..|rs| - 1], k); }
      if r.Submit? { SubmitLogs(s, r.order, k); }
    }
  }

  lemma SubmitLogs(s: Session, o: Ord, k: nat)
    requires Numbered(s.log) && k < |ProcessEs(s, o).desk.trades|
    requires k < |s.desk.trades| ==> TradeLogged(s.log, s.desk.trades[k])
    ensures TradeLogged(ProcessEs(s, o).log, ProcessEs(s, o).desk.trades[k])
  {
    AcceptsExactly(s, o);
    if Admissible(o) {
      OrderAudited(s, o);
      if k < |s.desk.trades| {
        LoggedStays(s.log, ProcessEs(s, o).log, s.desk.trades[k]);
      } else {
        OrderLogged(s, o, k - |s.desk.trades|);
      }
    } else {
      LoggedStays(s.log, ProcessEs(s, o).log, s.desk.trades[k]);
    }
  }

  /** The engine's counters are those of its trades. */
  lemma {:induction false} CountersTell(rs: seq<Request>)
    ensures var d := SessionRun(rs).desk; d.count == |d.trades| && d.volume == Quantities(d.trades)
  {
    if rs != [] {
      CountersTell(rs[..|rs| - 1]);
      var s, r := SessionRun(rs[..|rs| - 1]), rs[|rs| - 1];
      if r.Submit? && Admissible(r.order) {
        var a := At(r.order, Latest(s.log) + 1);
        FillQuantities(DeskMatch(s.desk, a).fills, DeskTrades(true, a, DeskMatch(s.desk, a).fills));
        TapeConcat(s.desk.trades, DeskTrades(true, a, DeskMatch(s.desk, a).fills), Buy, 0);
      }
    }
  }

  lemma {:induction false} FillQuantities(f: seq<Fill>, ts: seq<Trade>)
    requires |f| == |ts| && forall i :: 0 <= i < |f| ==> ts[i].quantity == f[i].quantity
    ensures Volume(f) == Quantities(ts)
  {
    if f != [] { FillQuantities(f[1..], ts[1..]); }
  }

  /** The answer to a query by order on the log of a session. */
  ghost function Answer(log: seq<Event>, order: nat): seq<Event> {
    if order in OrderIndex(log) then Mentioning(log, order) else []
  }

  /** For an order submitted in a session the query returns its placed event and the matched event of each trade it was
      in, on either side, in the order of the log, and nothing about others only. */
  lemma QueryTells(rs: seq<Request>, order: nat)
    requires NewRequests(rs) && order != 0
    ensures var log, found := SessionRun(rs).log, Answer(SessionRun(rs).log, order);
      && (forall e :: e in log && e.payload.OrderPlaced? && e.payload.order == order ==> e in found)
      && (forall e :: e in log && e.payload.OrderMatched? && order in {e.payload.taker, e.payload.maker} ==> e in found)
      && (forall e :: e in found ==> e in log && OnlyAbout(e, order))
      && Ascending(found)
  {
    var log := SessionRun(rs).log;
    QueryComplete(rs, order);
    QueryReturns(log, order);
    RunNumbered(rs);
    NumberedLatest(log);
  }

  lemma TradeAnswered(rs: seq<Request>, k: nat, order: nat)
    requires NewRequests(rs) && order != 0 && k < |SessionRun(rs).desk.trades|
    requires var t := SessionRun(rs).desk.trades[k]; order in {t.buyId, t.sellId}
    ensures var t := SessionRun(rs).desk.trades[k];
      exists e :: e in Answer(SessionRun(rs).log, order) && e.payload.OrderMatched? && e.sequence == t.sequence
                  && e.payload.price == t.price && e.payload.quantity == t.quantity
                  && {e.payload.taker, e.payload.maker} == {t.buyId, t.sellId}
  {
    var log, t := SessionRun(rs).log, SessionRun(rs).desk.trades[k];
    TradesLogged(rs, k);
    QueryTells(rs, order);
    var j :| 0 <= j < |log| - 1 && LoggedAt(log, t, j);
    assert log[j] in Answer(log, order);
  }
}
