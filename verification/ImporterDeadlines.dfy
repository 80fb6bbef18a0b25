/**
 * The importer's own deadlines: which requests a sweep times out, whom it tells, and, over whole runs,
 * that a submit is timed out at its deadline and not before.
 */
module ImporterDeadlines {
  import opened Wire
  import Status
  import opened Codec
  import opened Reassembly
  import Scheduler
  import opened Importing
  import opened ImporterAccounting

  /** The request has a deadline, and it is not after `now`. */
  predicate PastDue(r: Request, now: nat) { r.deadline.At? && r.deadline.ns <= now }

  /** The owner of `r` is told that it timed out: nothing moved, and no reply is echoed. */
  predicate TimedOut(d: Delivery, r: Request) { d == Delivery(r, Status.XFER_TIMEOUT, 0, false, [], None) }

  /** Each of `rs` is an entry of the table that `gone` picks, and none comes twice. */
  ghost predicate Pickings(table: map<Key, Request>, order: seq<Key>, gone: Request -> bool, rs: seq<Request>) {
    && (forall i :: 0 <= i < |rs| ==> rs[i].key in order && rs[i].key in table && table[rs[i].key] == rs[i] && gone(rs[i]))
    && (forall i, j :: 0 <= i < j < |rs| ==> rs[i].key != rs[j].key)
  }

  lemma PickingsGrow(table: map<Key, Request>, order: seq<Key>, gone: Request -> bool, rs: seq<Request>)
    requires order != [] && order[0] !in order[1..] && Pickings(table, order[1..], gone, rs)
    ensures Pickings(table, order, gone, rs)
    ensures order[0] in table && table[order[0]].key == order[0] && gone(table[order[0]]) ==> Pickings(table, order, gone, [table[order[0]]] + rs)
  {
    forall i | 0 <= i < |rs| ensures rs[i].key in order { assert rs[i].key in order[1..]; }
    if order[0] in table && table[order[0]].key == order[0] && gone(table[order[0]]) {
      var all := [table[order[0]]] + rs;
      forall i | 0 <= i < |all| ensures all[i].key in order && all[i].key in table && table[all[i].key] == all[i] && gone(all[i]) {
        if i > 0 { assert all[i] == rs[i - 1]; }
      }
      forall i, j | 0 <= i < j < |all| ensures all[i].key != all[j].key {
        assert all[j] == rs[j - 1] && rs[j - 1].key in order[1..];
        if i > 0 { assert all[i] == rs[i - 1]; }
      }
    }
  }

  lemma {:induction false} PickedArePickings(table: map<Key, Request>, order: seq<Key>, gone: Request -> bool)
    requires forall k :: k in table ==> table[k].key == k
    requires forall i, j :: 0 <= i < j < |order| ==> order[i] != order[j]
    ensures Pickings(table, order, gone, Picked(table, order, gone))
    decreases |order|
  {
    if order != [] {
      PickedArePickings(table, order[1..], gone);
      PickingsGrow(table, order, gone, Picked(table, order[1..], gone));
    }
  }

  lemma {:induction false} TellEachKeepsTable(s: Importer, rs: seq<Request>, st: u16)
    ensures var t := TellEach(s, rs, st); t.table == s.table && t.cancelled == s.cancelled && t.dropped == s.dropped && t.accepted == s.accepted
    decreases |rs|
  {
    if rs != [] { TellEachKeepsTable(Told(Forgotten(s, rs[0].key), rs[0], st), rs[1..], st); }
  }

  predicate IsOverdue(table: map<Key, Request>, k: Key, now: nat) { k in table && PastDue(table[k], now) }

  /** From position `n` on, the owner of `r` is told that it timed out. */
  ghost predicate Tells(ds: seq<Delivery>, n: nat, r: Request) { exists i :: n <= i < |ds| && TimedOut(ds[i], r) }

  /** Delivery `d` is the timeout of an overdue request of the table. */
  predicate TellsOverdue(d: Delivery, table: map<Key, Request>, now: nat) {
    IsOverdue(table, d.req.key, now) && TimedOut(d, table[d.req.key])
  }

  /** What a sweep at `now` adds to the deliveries: a timeout for each overdue request, once, and nothing else. */
  ghost predicate TellsTheOverdue(table: map<Key, Request>, ds: seq<Delivery>, n: nat, now: nat) {
    && (forall i :: n <= i < |ds| ==> TellsOverdue(ds[i], table, now))
    && (forall k :: IsOverdue(table, k, now) ==> Tells(ds, n, table[k]))
    && (forall i, j :: n <= i < j < |ds| ==> ds[i].req.key != ds[j].req.key)
  }

  /** Telling `rs`, which are the overdue requests of the table. */
  lemma ToldAreOverdue(table: map<Key, Request>, ds: seq<Delivery>, n: nat, now: nat, order: seq<Key>, gone: Request -> bool, rs: seq<Request>)
    requires gone == ((r: Request) => Scheduler.Expired(r.deadline, now)) && Pickings(table, order, gone, rs)
    requires forall k :: IsOverdue(table, k, now) ==> table[k] in rs
    requires |ds| == n + |rs| && forall i :: 0 <= i < |rs| ==> ds[n + i] == LocalOutcome(rs[i], Status.XFER_TIMEOUT)
    ensures TellsTheOverdue(table, ds, n, now)
  {
    forall i | n <= i < |ds| ensures ds[i].req == rs[i - n] && TellsOverdue(ds[i], table, now) {
      assert ds[n + (i - n)] == LocalOutcome(rs[i - n], Status.XFER_TIMEOUT) && gone(rs[i - n]);
    }
    forall k | IsOverdue(table, k, now) ensures Tells(ds, n, table[k]) {
      var i :| 0 <= i < |rs| && rs[i] == table[k];
      assert TimedOut(ds[n + i], table[k]);
    }
  }

  /** What a sweep at `now` leaves: exactly the requests whose deadline is after `now`, each owner of another told once. */
  ghost predicate SweptAt(s: Importer, t: Importer, now: nat) {
    && (forall k :: k in t.table <==> k in s.table && !IsOverdue(s.table, k, now)) && (forall k :: k in t.table ==> t.table[k] == s.table[k])
    && t.cancelled == s.cancelled && t.dropped == s.dropped && t.accepted == s.accepted
    && s.delivered <= t.delivered && TellsTheOverdue(s.table, t.delivered, |s.delivered|, now)
  }

  ghost predicate Keyed(table: map<Key, Request>) { forall k :: k in table ==> table[k].key == k }

  /** Walking the whole table, every overdue request is picked. */
  lemma OverduePicked(table: map<Key, Request>, now: nat, order: seq<Key>, gone: Request -> bool, k: Key)
    requires IsOverdue(table, k, now) && k in order && gone == ((r: Request) => Scheduler.Expired(r.deadline, now))
    ensures table[k] in Picked(table, order, gone)
  {
    PickedHas(table, order, gone, k);
  }

  lemma WalkPicks(table: map<Key, Request>, now: nat, order: seq<Key>, gone: Request -> bool)
    requires Keyed(table) && Walks(order, table) && gone == ((r: Request) => Scheduler.Expired(r.deadline, now))
    ensures Pickings(table, order, gone, Picked(table, order, gone))
    ensures forall k :: IsOverdue(table, k, now) ==> table[k] in Picked(table, order, gone)
  {
    PickedArePickings(table, order, gone);
    forall k | IsOverdue(table, k, now) ensures table[k] in Picked(table, order, gone) { OverduePicked(table, now, order, gone, k); }
  }

  lemma StayExactly(table: map<Key, Request>, now: nat, gone: Request -> bool)
    requires gone == ((r: Request) => Scheduler.Expired(r.deadline, now))
    ensures var left := Without(table, gone);
            (forall k :: k in left <==> k in table && !IsOverdue(table, k, now)) && forall k :: k in left ==> left[k] == table[k]
  {}

  /** From `s` to `t` what `gone` picks left the table, and the owners of `rs` were told, in that order. */
  ghost predicate Retired(s: Importer, t: Importer, gone: Request -> bool, rs: seq<Request>) {
    && t.table == Without(s.table, gone) && t.cancelled == s.cancelled && t.dropped == s.dropped && t.accepted == s.accepted
    && |t.delivered| == |s.delivered| + |rs| && s.delivered <= t.delivered
    && forall i :: 0 <= i < |rs| ==> t.delivered[|s.delivered| + i] == LocalOutcome(rs[i], Status.XFER_TIMEOUT)
  }

  lemma TellingRetires(s: Importer, m: Importer, gone: Request -> bool, rs: seq<Request>)
    requires m == s.(table := Without(s.table, gone))
    ensures Retired(s, TellEach(m, rs, Status.XFER_TIMEOUT), gone, rs)
  {
    TellEachTells(m, rs, Status.XFER_TIMEOUT);
    TellEachKeepsTable(m, rs, Status.XFER_TIMEOUT);
  }

  lemma SweepRetires(s: Importer, t: Importer, now: nat, order: seq<Key>, gone: Request -> bool, rs: seq<Request>)
    requires Pickings(s.table, order, gone, rs) && gone == ((r: Request) => Scheduler.Expired(r.deadline, now))
    requires forall k :: IsOverdue(s.table, k, now) ==> s.table[k] in rs
    requires Retired(s, t, gone, rs)
    ensures SweptAt(s, t, now)
  {
    StayExactly(s.table, now, gone);
    ToldAreOverdue(s.table, t.delivered, |s.delivered|, now, order, gone, rs);
  }

  lemma TableIsKeyed(c: Config, s: Importer)
    requires Inv(c, s)
    ensures Keyed(s.table)
  {}

  /** A sweep at `now` retires exactly the requests whose deadline is not after `now`, and tells each of their owners once. */
  lemma SweepExactly(s: Importer, now: nat, order: seq<Key>)
    requires Keyed(s.table) && Walks(order, s.table)
    ensures SweptAt(s, Sweep(s, now, order), now)
  {
    var gone := (r: Request) => Scheduler.Expired(r.deadline, now);
    var rs := Picked(s.table, order, gone);
    WalkPicks(s.table, now, order, gone);
    TellingRetires(s, s.(table := Without(s.table, gone)), gone, rs);
    SweepRetires(s, Sweep(s, now, order), now, order, gone, rs);
  }

  // ---------------------------------------------------------------- cancel

  /** The caller's cancel retires exactly its own request and the reply it was being sent; nobody is told. */
  lemma CancelExactly(c: Config, s: Importer, key: Key)
    ensures var t := Step(c, s, ECancel(key));
            && t.table == s.table - {key} && t.replies == s.replies - {key} && key !in t.reasm.partial
            && t.delivered == s.delivered && t.dropped == s.dropped && t.accepted == s.accepted
            && t.cancelled == s.cancelled + (if key in s.table then [key] else [])
  {
    if key !in s.table { assert s.table - {key} == s.table; }
  }

  // ---------------------------------------------------------------- over runs

  lemma {:induction false} ImportPrefix(c: Config, s: Importer, es: seq<Event>, n: nat)
    requires PossibleRun(c, s, es) && n < |es|
    ensures PossibleRun(c, s, es[..n]) && PossibleRun(c, s, es[..n + 1])
    ensures Possible(c, Run(c, s, es[..n]), es[n]) && Run(c, s, es[..n + 1]) == Step(c, Run(c, s, es[..n]), es[n])
    decreases n
  {
    if n == 0 {
      assert es[..1][1..] == [] && es[..0] == [];
    } else {
      ImportPrefix(c, Step(c, s, es[0]), es[1..], n - 1);
      assert es[..n][1..] == es[1..][..n - 1] && es[..n + 1][1..] == es[1..][..n];
    }
  }

  lemma SubmitGrows(c: Config, s: Importer, e: Event)
    requires Possible(c, s, e)
    ensures s.accepted <= Step(c, s, e).accepted
  {
    match e
    case ESubmit(_, _, _, _, _) =>
    case EReceive(rec) => ReceiveKeepsAccepted(c, s, rec);
    case ESweep(now, order) =>
      var gone := (r: Request) => Scheduler.Expired(r.deadline, now);
      TellEachKeepsTable(s.(table := Without(s.table, gone)), Picked(s.table, order, gone), Status.XFER_TIMEOUT);
    case ECancel(_) =>
    case ECompleteAll(with, order) =>
      var gone := (r: Request) => r.id.attachId == c.attachId;
      TellEachKeepsTable(s.(table := Without(s.table, gone), replies := map[], reasm := EMPTY), Picked(s.table, order, gone), with);
  }

  lemma {:induction false} AcceptedGrows(c: Config, es: seq<Event>, k: nat, n: nat)
    requires PossibleRun(c, FRESH, es) && k <= n <= |es|
    ensures PossibleRun(c, FRESH, es[..k]) && PossibleRun(c, FRESH, es[..n])
    ensures Run(c, FRESH, es[..k]).accepted <= Run(c, FRESH, es[..n]).accepted
    decreases n - k
  {
    if k < n {
      AcceptedGrows(c, es, k, n - 1);
      ImportPrefix(c, FRESH, es, n - 1);
      SubmitGrows(c, Run(c, FRESH, es[..n - 1]), es[n - 1]);
    } else if n < |es| {
      ImportPrefix(c, FRESH, es, n);
    } else {
      assert es[..n] == es;
    }
  }

  /** Event `j` is a submit that was accepted under `key`. */
  ghost predicate AcceptedAt(c: Config, es: seq<Event>, j: nat, key: Key)
    requires PossibleRun(c, FRESH, es)
  {
    && j < |es| && es[j].ESubmit? && PossibleRun(c, FRESH, es[..j])
    && var s := Run(c, FRESH, es[..j]); var e := es[j];
       && IdsLast(c, s, e.call) && key == NewKey(c, s, e.call)
       && Submit(c, s, e.call, e.now, e.linkUp, e.maxPlain, e.emitted).status == Status.OK
  }

  /** A submit made at `now` with this timeout, in milliseconds and 0 for none, is overdue at `at`. */
  predicate Overdue(now: nat, timeoutMs: u32, at: nat) { timeoutMs > 0 && at >= now + timeoutMs * 1_000_000 }

  lemma AcceptedRequest(c: Config, es: seq<Event>, j: nat, key: Key)
    requires PossibleRun(c, FRESH, es) && AcceptedAt(c, es, j, key)
    ensures var s := Run(c, FRESH, es);
            && Inv(c, s)
            && (key in s.table ==> forall at: nat :: PastDue(s.table[key], at) <==> Overdue(es[j].now, es[j].call.timeoutMs, at))
  {
    var was, s, e := Run(c, FRESH, es[..j]), Run(c, FRESH, es), es[j];
    ImportPrefix(c, FRESH, es, j);
    AcceptedGrows(c, es, j + 1, |es|);
    assert es[..|es|] == es;
    InitialInv(c);
    RunInv(c, FRESH, es);
    var i, r := |was.accepted|, RequestFor(c, e.call, key, e.now);
    assert Step(c, was, e).accepted == was.accepted + [r];
    assert s.accepted[i] == r;
    if key in s.table { TableHolds(c, s, i, key); }
  }

  /** The table holds a key's request as it was accepted. */
  lemma TableHolds(c: Config, s: Importer, i: nat, key: Key)
    requires Inv(c, s) && key in s.table && i < |s.accepted| && s.accepted[i].key == key
    ensures s.table[key] == s.accepted[i]
  {
    assert s.table[key] in s.accepted && s.table[key].key == key;
    var n :| 0 <= n < |s.accepted| && s.accepted[n] == s.table[key];
    OneRequest(s.accepted, i, n);
  }

  lemma OneRequest(rs: seq<Request>, i: nat, n: nat)
    requires Distinct(rs) && i < |rs| && n < |rs| && rs[i].key == rs[n].key
    ensures i == n
  {}

  /**
   * At any point of any run a sweep retires an outstanding submit exactly when its deadline, its timeout past
   * the time it was made, is not in the future; then its owner is told so, and otherwise the sweep tells that
   * owner nothing. So no submit is outstanding after a sweep past its deadline, and none is timed out before.
   */
  lemma TimedOutExactly(c: Config, es: seq<Event>, j: nat, key: Key, at: nat, order: seq<Key>)
    requires PossibleRun(c, FRESH, es) && AcceptedAt(c, es, j, key) && Walks(order, Run(c, FRESH, es).table)
    ensures var s := Run(c, FRESH, es); var t := Sweep(s, at, order); var due := Overdue(es[j].now, es[j].call.timeoutMs, at);
            SweptFor(s, t, key, key in s.table && due) && (due ==> key !in t.table) && t == Step(c, s, ESweep(at, order))
  {
    AcceptedRequest(c, es, j, key);
    TableIsKeyed(c, Run(c, FRESH, es));
    SweepExactly(Run(c, FRESH, es), at, order);
    OneKeySwept(Run(c, FRESH, es), Sweep(Run(c, FRESH, es), at, order), at, key);
  }

  /** A sweep, seen by the owner of one request. */
  ghost predicate SweptFor(s: Importer, t: Importer, key: Key, due: bool) {
    && (key in t.table <==> key in s.table && !due)
    && ((exists i :: |s.delivered| <= i < |t.delivered| && t.delivered[i].req.key == key) <==> key in s.table && due)
    && (forall i :: |s.delivered| <= i < |t.delivered| && t.delivered[i].req.key == key ==> key in s.table && TimedOut(t.delivered[i], s.table[key]))
  }

  lemma OneKeySwept(s: Importer, t: Importer, at: nat, key: Key)
    requires SweptAt(s, t, at) && Keyed(s.table)
    ensures SweptFor(s, t, key, IsOverdue(s.table, key, at))
  {
    if IsOverdue(s.table, key, at) {
      assert Tells(t.delivered, |s.delivered|, s.table[key]);
      var i :| |s.delivered| <= i < |t.delivered| && TimedOut(t.delivered[i], s.table[key]);
      assert t.delivered[i].req.key == key;
    }
    forall i | |s.delivered| <= i < |t.delivered| && t.delivered[i].req.key == key ensures key in s.table && TimedOut(t.delivered[i], s.table[key]) {
      assert TellsOverdue(t.delivered[i], s.table, at);
    }
  }
}
