/** Exactly-once, first-in first-out delivery of requests to offices. */
module Delivery {
  import opened BankTypes
  import opened OfficeMachine
  import opened Histories
  import opened QueueProtocol
  import opened CoreInvariant
  import Rings

  predicate Carries(m: Machine, h: History, i: int, t: nat)
    requires |h.ticket| == |m.offices|
  {
    0 <= i < |m.offices| && InHand(m.offices[i].pc) && h.ticket[i] == t
  }

  /** The pushed requests are the popped ones followed by the queued ones. */
  predicate Fifo(m: Machine, h: History, cfg: Config)
    requires Fits(m, cfg)
  {
    h.pushed == h.popped + Rings.Contents(m.queue) && |h.repliedBefore| == |h.popped|
  }

  /** Each office in the middle of a request carries a ticket of its own, for exactly
      that request, with no reply sent yet. */
  predicate OwnTickets(m: Machine, h: History)
    requires |h.ticket| == |m.offices|
  {
    && (forall i :: 0 <= i < |m.offices| && InHand(m.offices[i].pc) ==>
          && h.ticket[i] < |h.popped|
          && h.popped[h.ticket[i]] == m.offices[i].req
          && h.ticket[i] !in h.replies)
    && (forall i, j :: 0 <= i < j < |m.offices| && InHand(m.offices[i].pc) && InHand(m.offices[j].pc) ==>
          h.ticket[i] != h.ticket[j])
  }

  /** No ticket is lost: replied to, or carried by an office. */
  ghost predicate NoneLost(m: Machine, h: History)
    requires |h.ticket| == |m.offices|
  {
    && (forall t :: t in h.replies ==> t < |h.popped|)
    && (forall t :: 0 <= t < |h.popped| && t !in h.replies ==> exists i :: Carries(m, h, i, t))
  }

  ghost predicate DeliveryInv(s: State, cfg: Config)
    requires StateFits(s, cfg)
  {
    Fifo(s.m, s.h, cfg) && OwnTickets(s.m, s.h) && NoneLost(s.m, s.h)
  }

  /** A step of office i that neither takes a request nor replies to one. */
  lemma QuietOfficeStep(s: State, i: nat, salt: Text, cfg: Config)
    requires StateFits(s, cfg) && CoreInv(s.m, cfg) && OfficeEnabled(s.m, i, cfg)
    requires !s.m.offices[i].pc.Pop? && !s.m.offices[i].pc.Replying?
    ensures var s' := Next(s, OfficeStep(i, salt), cfg);
            && s'.m.offices == s.m.offices[i := s'.m.offices[i]]
            && (InHand(s'.m.offices[i].pc) <==> InHand(s.m.offices[i].pc))
            && s'.m.offices[i].req == s.m.offices[i].req
            && s'.m.queue == s.m.queue
            && s'.h == s.h.(events := s'.h.events, decided := s'.h.decided)
  {
    OfficeStepIsGood(s.m, i, salt, cfg);
    if !InLoop(s.m.offices[i].pc) {
      HandlingFrame(s.m, i, salt, cfg);
    }
  }

  lemma QuietKeepsDelivery(s: State, i: nat, salt: Text, cfg: Config)
    requires StateFits(s, cfg) && CoreInv(s.m, cfg) && OfficeEnabled(s.m, i, cfg)
    requires !s.m.offices[i].pc.Pop? && !s.m.offices[i].pc.Replying?
    requires DeliveryInv(s, cfg)
    ensures DeliveryInv(Next(s, OfficeStep(i, salt), cfg), cfg)
  {
    var s' := Next(s, OfficeStep(i, salt), cfg);
    QuietOfficeStep(s, i, salt, cfg);
    forall t | 0 <= t < |s'.h.popped| && t !in s'.h.replies
      ensures exists j :: Carries(s'.m, s'.h, j, t)
    {
      var j :| Carries(s.m, s.h, j, t);
      assert Carries(s'.m, s'.h, j, t);
    }
  }

  lemma PopStep(s: State, i: nat, salt: Text, cfg: Config)
    requires StateFits(s, cfg) && CoreInv(s.m, cfg) && OfficeEnabled(s.m, i, cfg) && s.m.offices[i].pc.Pop?
    ensures var s' := Next(s, OfficeStep(i, salt), cfg);
            && s'.m.offices == s.m.offices[i := s'.m.offices[i]]
            && s'.m.offices[i].pc == UnlockQueue
            && Rings.Contents(s.m.queue) == [s'.m.offices[i].req] + Rings.Contents(s'.m.queue)
            && s'.h == s.h.(popped := s.h.popped + [s'.m.offices[i].req],
                            repliedBefore := s.h.repliedBefore + [s.h.replies.Keys],
                            ticket := s.h.ticket[i := |s.h.popped|])
            && s'.m.bank == s.m.bank
  {
    PopFindsItem(s.m, i, cfg);
    Rings.DequeueRemovesHead(s.m.queue);
  }

  lemma PopKeepsDelivery(s: State, i: nat, salt: Text, cfg: Config)
    requires StateFits(s, cfg) && CoreInv(s.m, cfg) && OfficeEnabled(s.m, i, cfg) && s.m.offices[i].pc.Pop?
    requires DeliveryInv(s, cfg)
    ensures DeliveryInv(Next(s, OfficeStep(i, salt), cfg), cfg)
  {
    hide QueueFits, CoreInv, Apply, Record;
    var s' := Next(s, OfficeStep(i, salt), cfg);
    PopStep(s, i, salt, cfg);
    forall t | 0 <= t < |s'.h.popped| && t !in s'.h.replies
      ensures exists j :: Carries(s'.m, s'.h, j, t)
    {
      if t == |s.h.popped| {
        assert Carries(s'.m, s'.h, i, t);
      } else {
        var j :| Carries(s.m, s.h, j, t);
        assert Carries(s'.m, s'.h, j, t);
      }
    }
  }

  lemma ReplyStep(s: State, i: nat, salt: Text, cfg: Config)
    requires StateFits(s, cfg) && OfficeEnabled(s.m, i, cfg) && s.m.offices[i].pc.Replying?
    ensures var s' := Next(s, OfficeStep(i, salt), cfg);
            && s'.m == SetOffice(s.m, i, s.m.offices[i].(pc := ClearActive))
            && s'.h == s.h.(replies := s.h.replies[s.h.ticket[i] := s.m.offices[i].reply])
  {
  }

  lemma ReplyKeepsDelivery(s: State, i: nat, salt: Text, cfg: Config)
    requires StateFits(s, cfg) && CoreInv(s.m, cfg) && OfficeEnabled(s.m, i, cfg)
    requires s.m.offices[i].pc.Replying? && DeliveryInv(s, cfg)
    ensures DeliveryInv(Next(s, OfficeStep(i, salt), cfg), cfg)
  {
    var s' := Next(s, OfficeStep(i, salt), cfg);
    ReplyStep(s, i, salt, cfg);
    forall t | 0 <= t < |s'.h.popped| && t !in s'.h.replies
      ensures exists j :: Carries(s'.m, s'.h, j, t)
    {
      var j :| Carries(s.m, s.h, j, t);
      assert Carries(s'.m, s'.h, j, t);
    }
  }

  lemma MainKeepsDelivery(s: State, input: Input, cfg: Config)
    requires StateFits(s, cfg) && CoreInv(s.m, cfg) && MainEnabled(s.m, input, cfg)
    requires DeliveryInv(s, cfg)
    ensures DeliveryInv(Next(s, MainStep(input), cfg), cfg)
  {
    var s' := Next(s, MainStep(input), cfg);
    if s.m.main.PushM? {
      Rings.PushAppends(s.m.queue, s.m.main.req);
    }
    assert s'.m.offices == s.m.offices;
    forall t | 0 <= t < |s'.h.popped| && t !in s'.h.replies
      ensures exists j :: Carries(s'.m, s'.h, j, t)
    {
      var j :| Carries(s.m, s.h, j, t);
      assert Carries(s'.m, s'.h, j, t);
    }
  }

  lemma DeliveryInitially(s: State, cfg: Config)
    requires Initial(s, cfg)
    ensures DeliveryInv(s, cfg)
  {
  }

  lemma DeliveryStep(s: State, step: Step, cfg: Config)
    requires StateFits(s, cfg) && CoreInv(s.m, cfg) && Enabled(s.m, step, cfg)
    requires DeliveryInv(s, cfg)
    ensures DeliveryInv(Next(s, step, cfg), cfg)
  {
    match step
    case OfficeStep(i, salt) =>
      if s.m.offices[i].pc.Pop? {
        PopKeepsDelivery(s, i, salt, cfg);
      } else if s.m.offices[i].pc.Replying? {
        ReplyKeepsDelivery(s, i, salt, cfg);
      } else {
        QuietKeepsDelivery(s, i, salt, cfg);
      }
    case MainStep(input) =>
      MainKeepsDelivery(s, input, cfg);
  }
}
