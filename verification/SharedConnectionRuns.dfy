/**
  Conservation of responses in SharedConnection, and the step from single steps to whole runs:
  the invariant of the other SharedConnection modules holds in every reachable state.
 */
module SharedConnectionRuns {
  import opened Wrappers
  import opened SharedConnection
  import opened SharedConnectionLocks
  import opened SharedConnectionGates
  import opened SharedConnectionFutures
  import opened SharedConnectionTables
  import opened SharedConnectionBodies
  import opened SharedConnectionParking
  import L = LruSpec

  // ---- Conservation of responses ----------------------------------------------------

  ghost function CarriedMsgs(r: ReaderPc): multiset<Msg> {
    if Carried(r).Some? then multiset{Carried(r).value} else multiset{}
  }

  ghost predicate Balanced(mail: Mail, pooled: multiset<Msg>, carried: multiset<Msg>) {
    mail.received == mail.toHeartbeat + mail.toReader + mail.fromPool
      + mail.refused + mail.overflowed + mail.cleared + pooled + carried
  }

  /** Every response received is in exactly one place. */
  ghost predicate MailInv(s: State) {
    Balanced(s.mail, PoolMsgs(s.data.pool), CarriedMsgs(s.r))
  }

  /** The three ways to place the response carried, besides the pool. */
  lemma PlacingBalances(mail: Mail, pooled: multiset<Msg>, m: multiset<Msg>)
    requires Balanced(mail, pooled, m)
    ensures Balanced(mail.(refused := mail.refused + m), pooled, multiset{})
    ensures Balanced(mail.(toHeartbeat := mail.toHeartbeat + m), pooled, multiset{})
    ensures Balanced(mail.(toReader := mail.toReader + m), pooled, multiset{})
  {
  }

  lemma PoolingBalances(mail: Mail, pooled: multiset<Msg>, pooled': multiset<Msg>, lost: multiset<Msg>, m: multiset<Msg>)
    requires Balanced(mail, pooled, m) && pooled' + lost == pooled + m
    ensures Balanced(mail.(overflowed := mail.overflowed + lost), pooled', multiset{})
  {
    forall x: Msg ensures pooled'[x] + lost[x] == pooled[x] + m[x] {
      assert (pooled' + lost)[x] == (pooled + m)[x];
    }
  }

  /** Nothing moves between the places a response can be in. */
  ghost predicate SameMail(s: State, s': State) {
    s'.mail == s.mail && s'.data.pool == s.data.pool && Carried(s'.r) == Carried(s.r)
  }

  lemma SameMailKeeps(s: State, s': State)
    requires MailInv(s) && SameMail(s, s')
    ensures MailInv(s')
  {
  }

  lemma CloseStepKeepsMail(s: State, t: Tid, p: ClosePc)
    requires MailInv(s) && Exists(s, t) && ClosePoint(s, t) == Some(p) && CloseStep(s, t, p).Some?
    ensures MailInv(CloseStep(s, t, p).value)
  {
    var s' := CloseStep(s, t, p).value;
    assert Carried(s'.r) == Carried(s.r);
    if p.ClearPool? {
      assert s'.mail == s.mail.(cleared := s.mail.cleared + PoolMsgs(s.data.pool));
      assert PoolMsgs(s'.data.pool) == multiset{};
    } else {
      SameMailKeeps(s, s');
    }
  }

  lemma ReadStepSameMail(cfg: Config, s: State, n: nat, id: nat, p: ReadPc)
    requires cfg.Valid() && n in s.c && ReadStep(cfg, s, n, id, p).Some?
    requires !(p.Serve? && L.Has(s.data.pool, id))
    ensures SameMail(s, ReadStep(cfg, s, n, id, p).value)
  {
    if p.Serve? {
      assert s.mail.fromPool + multiset{} == s.mail.fromPool;
    }
  }

  lemma ReadStepKeepsMail(cfg: Config, s: State, n: nat, id: nat, p: ReadPc)
    requires cfg.Valid() && MailInv(s) && n in s.c && ReadStep(cfg, s, n, id, p).Some?
    ensures MailInv(ReadStep(cfg, s, n, id, p).value)
  {
    if p.Serve? && L.Has(s.data.pool, id) {
      assert Carried(ReadStep(cfg, s, n, id, p).value.r) == Carried(s.r);
      PoolMsgsSplit(s.data.pool, L.Find(s.data.pool, id));
    } else {
      ReadStepSameMail(cfg, s, n, id, p);
      SameMailKeeps(s, ReadStep(cfg, s, n, id, p).value);
    }
  }

  lemma WriteStepSameMail(cfg: Config, s: State, n: nat, p: WritePc)
    requires n in s.c && WriteStep(cfg, s, n, p).Some?
    ensures SameMail(s, WriteStep(cfg, s, n, p).value)
  {
  }

  lemma WriterStepSameMail(cfg: Config, s: State, ch: Choice)
    requires !s.w.WriterClosing? && WriterStep(cfg, s, ch).Some?
    ensures SameMail(s, WriterStep(cfg, s, ch).value)
  {
  }

  lemma ListenStepSameMail(s: State, p: ListenPc, ch: Choice)
    requires s.r == Listening(p) && ListenStep(s, p, ch).Some? && !(p.Receive? && ch.Got?)
    ensures SameMail(s, ListenStep(s, p, ch).value)
  {
  }

  lemma ReceivingBalances(mail: Mail, pooled: multiset<Msg>, m: Msg)
    requires Balanced(mail, pooled, multiset{})
    ensures Balanced(mail.(received := mail.received + multiset{m}), pooled, multiset{m})
  {
  }

  lemma ListenStepKeepsMail(s: State, p: ListenPc, ch: Choice)
    requires MailInv(s) && s.r == Listening(p) && ListenStep(s, p, ch).Some?
    ensures MailInv(ListenStep(s, p, ch).value)
  {
    if p.Receive? && ch.Got? {
      ReceivingBalances(s.mail, PoolMsgs(s.data.pool), ch.msg);
    } else {
      ListenStepSameMail(s, p, ch);
      SameMailKeeps(s, ListenStep(s, p, ch).value);
    }
  }

  /** The reader drops the response it carries, or answers a heartbeat with it. */
  ghost predicate Placed(s: State, s': State) {
    && s'.data.pool == s.data.pool && Carried(s.r).Some? && Carried(s'.r) == None
    && var m := multiset{Carried(s.r).value};
      || s'.mail == s.mail.(refused := s.mail.refused + m)
      || s'.mail == s.mail.(toHeartbeat := s.mail.toHeartbeat + m)
  }

  lemma PlacedKeeps(s: State, s': State)
    requires MailInv(s) && Placed(s, s')
    ensures MailInv(s')
  {
    PlacingBalances(s.mail, PoolMsgs(s.data.pool), CarriedMsgs(s.r));
  }

  lemma RouteStepPlaces(cfg: Config, s: State, p: RoutePc)
    requires cfg.Valid() && s.r == Routing(p) && !p.Deliver? && RouteStep(cfg, s, p).Some?
    ensures SameMail(s, RouteStep(cfg, s, p).value) || Placed(s, RouteStep(cfg, s, p).value)
  {
  }

  lemma RouteStepKeepsMail(cfg: Config, s: State, p: RoutePc)
    requires cfg.Valid() && MailInv(s) && PoolOk(cfg, s.data) && s.r == Routing(p) && RouteStep(cfg, s, p).Some?
    ensures MailInv(RouteStep(cfg, s, p).value)
  {
    var s' := RouteStep(cfg, s, p).value;
    if p.Deliver? {
      DeliverKeepsMail(cfg, s, p.msg);
    } else {
      RouteStepPlaces(cfg, s, p);
      if SameMail(s, s') {
        SameMailKeeps(s, s');
      } else {
        PlacedKeeps(s, s');
      }
    }
  }

  lemma DeliverKeepsMail(cfg: Config, s: State, m: Msg)
    requires cfg.Valid() && MailInv(s) && PoolOk(cfg, s.data) && s.r == Routing(Deliver(m))
    ensures MailInv(RouteStep(cfg, s, Deliver(m)).value)
  {
    var s' := RouteStep(cfg, s, Deliver(m)).value;
    var v := Pooled(|s.data.futs|, m.buff);
    assert CarriedMsgs(s.r) == multiset{m} && CarriedMsgs(s'.r) == multiset{};
    if L.Has(s.data.pendingReads, m.id) {
      PlacingBalances(s.mail, PoolMsgs(s.data.pool), multiset{m});
    } else {
      PoolMsgsAfterSet(cfg, s.data.pool, m.id, v);
      PoolingBalances(s.mail, PoolMsgs(s.data.pool), PoolMsgs(s'.data.pool), Displaced(cfg, s.data.pool, m.id), multiset{m});
    }
  }

  lemma StepKeepsMail(cfg: Config, s: State, t: Tid, ch: Choice)
    requires cfg.Valid() && MailInv(s) && PoolOk(cfg, s.data) && Exists(s, t) && Step(cfg, s, t, ch).Some?
    ensures MailInv(Step(cfg, s, t, ch).value)
  {
    if ClosePoint(s, t).Some? {
      CloseStepKeepsMail(s, t, ClosePoint(s, t).value);
    } else {
      match t {
        case Client(n) =>
          match s.c[n] {
            case Idle => SameMailKeeps(s, Step(cfg, s, t, ch).value);
            case Writing(p) => WriteStepSameMail(cfg, s, n, p); SameMailKeeps(s, Step(cfg, s, t, ch).value);
            case Reading(id, p) => ReadStepKeepsMail(cfg, s, n, id, p);
          }
        case Writer => WriterStepSameMail(cfg, s, ch); SameMailKeeps(s, Step(cfg, s, t, ch).value);
        case Reader =>
          match s.r {
            case Listening(p) => ListenStepKeepsMail(s, p, ch);
            case Routing(p) => RouteStepKeepsMail(cfg, s, p);
          }
      }
    }
  }

  // ---- The invariant of every run ---------------------------------------------------

  ghost predicate Inv(cfg: Config, s: State) {
    Base(cfg, s) && ParkInv(s) && TableInv(cfg, s) && MailInv(s) && BodyLaw(s.data, s.mail)
  }

  lemma InitInv(cfg: Config, clients: set<nat>)
    requires cfg.Valid()
    ensures Inv(cfg, Init(clients))
  {
  }

  lemma StepKeepsTables(cfg: Config, s: State, t: Tid, ch: Choice)
    requires Base(cfg, s) && ParkInv(s) && TableInv(cfg, s) && Exists(s, t) && Step(cfg, s, t, ch).Some?
    ensures TableInv(cfg, Step(cfg, s, t, ch).value)
  {
    if ClosePoint(s, t).Some? {
      CloseStepKeepsTables(cfg, s, t, ClosePoint(s, t).value);
    } else {
      match t {
        case Client(n) =>
          match s.c[n] {
            case Idle => IdleStepKeepsTables(cfg, s, n, ch);
            case Writing(p) => WriteStepKeepsTables(cfg, s, n, p);
            case Reading(id, p) => ReadStepKeepsTables(cfg, s, n, id, p);
          }
        case Writer =>
          match s.w {
            case Checking(p) => CheckStepKeepsTables(cfg, s, p);
            case Waiting(p) => WaitStepKeepsTables(cfg, s, p, ch);
            case Sending(p) => SendStepKeepsTables(cfg, s, p, ch);
          }
        case Reader =>
          match s.r {
            case Listening(p) => ListenStepKeepsTables(cfg, s, p, ch);
            case Routing(p) => RouteStepKeepsTables(cfg, s, p);
          }
      }
    }
  }

  lemma StepKeepsInv(cfg: Config, s: State, t: Tid, ch: Choice)
    requires Inv(cfg, s) && Exists(s, t) && Step(cfg, s, t, ch).Some?
    ensures Inv(cfg, Step(cfg, s, t, ch).value)
  {
    StepKeepsLocks(cfg, s, t, ch);
    StepKeepsFlags(cfg, s, t, ch);
    StepKeepsGates(cfg, s, t, ch);
    StepKeepsParking(cfg, s, t, ch);
    StepKeepsTables(cfg, s, t, ch);
    StepKeepsMail(cfg, s, t, ch);
    StepKeepsBodies(cfg, s, t, ch);
  }

  lemma {:induction false} RunKeepsInv(cfg: Config, s: State, run: seq<Event>)
    requires Inv(cfg, s) && Exec(cfg, s, run).Some?
    ensures Inv(cfg, Exec(cfg, s, run).value)
    decreases run
  {
    if run != [] {
      StepKeepsInv(cfg, s, run[0].t, run[0].ch);
      RunKeepsInv(cfg, Step(cfg, s, run[0].t, run[0].ch).value, run[1..]);
    }
  }

  ghost predicate Reachable(cfg: Config, s: State) {
    cfg.Valid() && exists clients: set<nat>, run :: Exec(cfg, Init(clients), run) == Some(s)
  }

  lemma ReachableInv(cfg: Config, s: State)
    requires Reachable(cfg, s)
    ensures Inv(cfg, s)
  {
    var clients: set<nat>, run :| Exec(cfg, Init(clients), run) == Some(s);
    InitInv(cfg, clients);
    RunKeepsInv(cfg, Init(clients), run);
  }

  lemma {:induction false} ExecAppend(cfg: Config, s: State, a: seq<Event>, b: seq<Event>)
    requires cfg.Valid() && Exec(cfg, s, a).Some?
    ensures Exec(cfg, s, a + b) == Exec(cfg, Exec(cfg, s, a).value, b)
    decreases a
  {
    if a == [] {
      assert a + b == b;
    } else {
      ExecAppend(cfg, Step(cfg, s, a[0].t, a[0].ch).value, a[1..], b);
      assert (a + b)[1..] == a[1..] + b;
    }
  }

  lemma ReachableStep(cfg: Config, s: State, t: Tid, ch: Choice)
    requires Reachable(cfg, s) && Exists(s, t) && Step(cfg, s, t, ch).Some?
    ensures Reachable(cfg, Step(cfg, s, t, ch).value)
  {
    var clients: set<nat>, run :| Exec(cfg, Init(clients), run) == Some(s);
    ExecAppend(cfg, Init(clients), run, [Event(t, ch)]);
    assert Exec(cfg, Init(clients), run + [Event(t, ch)]) == Step(cfg, s, t, ch);
  }
}
