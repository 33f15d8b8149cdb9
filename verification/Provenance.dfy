/** Where the descriptors in chain documents come from: every one of them was sent by an authority whose own node it
    describes and whose roster admits it in its role. */
module Provenance {
  import opened Prelude
  import opened Pki
  import opened Directory
  import opened Appchain
  import opened Safety
  import opened Guarantees

  ghost function Sites(world: World): seq<Site> {
    seq(|world.peers|, i requires 0 <= i < |world.peers| => world.peers[i].site)
  }

  /** Some authority serves this node and admits the descriptor. */
  ghost predicate Vouched(sites: seq<Site>, d: MixDescriptor) {
    exists i :: 0 <= i < |sites| && VouchedBy(sites[i], d)
  }

  predicate VouchedBy(site: Site, d: MixDescriptor) {
    d.id == site.node && Authorized(site.roster, d)
  }

  /** What was offered to the chain is vouched for, and what is registered was offered for that epoch. */
  ghost predicate OfferInv(sites: seq<Site>, c: Chain) {
    && (forall o | o in c.offered :: Vouched(sites, o.1))
    && (forall e: nat, d | d in RegisteredAt(c, e) :: (e, d) in c.offered)
  }

  // --- steps

  lemma SitesStay(net: Network, world: World, step: Step)
    requires net.period > 0 && Enabled(net, world, step)
    ensures Sites(Apply(net, world, step)) == Sites(world)
  {
    var world' := Apply(net, world, step);
    forall i | 0 <= i < |world.peers| ensures world'.peers[i].site == world.peers[i].site {
      SiteStays(net, world, step, i);
    }
  }

  lemma SiteStays(net: Network, world: World, step: Step, i: nat)
    requires net.period > 0 && Enabled(net, world, step) && i < |world.peers|
    ensures Apply(net, world, step).peers[i].site == world.peers[i].site
  {
    hide FsmStep, OnPostDescriptor, FinishFetch, Enabled;
  }

  /** An authority submits only its own node's descriptor, from its table. */
  lemma SubmitsOwn(net: Network, p: Peer, w: Wakeup)
    requires net.period > 0 && TableInv(p.site.roster, p.s.descriptors)
    ensures var effect := FsmStep(net, p.site, p.s, w).effect;
            effect.SubmitDescriptor? ==> VouchedBy(p.site, effect.desc)
  {
    hide AtBootstrap, AtAcceptDescriptor, AtAcceptVote, AtConfirmConsensus, EpochOf, Elapsed, Authorized;
    var t := Phased(net, p.site, p.s, w, EpochOf(net, w.start), Elapsed(net, w.start), Elapsed(net, w.later));
    if p.s.phase.DescriptorSend? {
      OwnVouched(net, p);
    } else {
      OthersSubmitNone(net, p.s, w, EpochOf(net, w.start), Elapsed(net, w.start), Elapsed(net, w.later));
    }
  }

  lemma OwnVouched(net: Network, p: Peer)
    requires TableInv(p.site.roster, p.s.descriptors)
    ensures OwnDescriptor(p.site, p.s).Some? ==> VouchedBy(p.site, OwnDescriptor(p.site, p.s).value)
  {
  }

  lemma OthersSubmitNone(net: Network, s: State, w: Wakeup, epoch: nat, elapsed: nat, later: nat)
    ensures !AtBootstrap(net, s, epoch, elapsed, w.jitter).effect.SubmitDescriptor?
    ensures !AtAcceptDescriptor(net, s, later, w.list).effect.SubmitDescriptor?
    ensures !AtAcceptVote(net, s, later).effect.SubmitDescriptor?
    ensures !AtConfirmConsensus(net, s, epoch, elapsed, w.jitter).effect.SubmitDescriptor?
  {
    hide Outcome, StartFetch, Recall;
  }

  lemma DeliverOffers(sites: seq<Site>, c: Chain, i: nat, effect: Effect, list: Option<seq<MixDescriptor>>)
    requires OfferInv(sites, c) && i < |sites| && (effect.SubmitDescriptor? ==> VouchedBy(sites[i], effect.desc))
    ensures OfferInv(sites, Deliver(c, effect, list))
  {
    var c' := Deliver(c, effect, list);
    forall o | o in c'.offered ensures Vouched(sites, o.1) {
      if o !in c.offered {
        assert VouchedBy(sites[i], o.1);
      }
    }
  }

  lemma RegisterOffers(sites: seq<Site>, c: Chain, epoch: nat, d: MixDescriptor)
    requires OfferInv(sites, c) && (epoch, d) in c.offered
    ensures OfferInv(sites, c.(registered := c.registered[epoch := RegisteredAt(c, epoch) + [d]]))
  {
  }

  lemma StepOffers(net: Network, world: World, step: Step)
    requires net.period > 0 && Inv(net, world) && Enabled(net, world, step) && OfferInv(Sites(world), world.chain)
    ensures OfferInv(Sites(world), Apply(net, world, step).chain)
  {
    hide FsmStep, OnPostDescriptor, FinishFetch;
    var c, sites := world.chain, Sites(world);
    match step {
      case Wake(i, w, delivered) =>
        var p := world.peers[i];
        assert PeerInv(net, c, p) && sites[i] == p.site;
        SubmitsOwn(net, p, w);
        DeliverOffers(sites, c, i, FsmStep(net, p.site, p.s, w).effect, w.list);
      case Register(epoch, d) => RegisterOffers(sites, c, epoch, d);
      case _ =>
    }
  }

  lemma {:induction false} RunOffers(net: Network, start: World, steps: seq<Step>)
    requires net.period > 0 && net.layers > 0 && Initial(net, start) && Runs(net, start, steps)
    ensures Sites(After(net, start, steps)) == Sites(start)
    ensures OfferInv(Sites(start), After(net, start, steps).chain)
  {
    hide Inv, OfferInv, Sites, Apply;
    if steps == [] {
      NothingOffered(net, start);
    } else {
      var front, last := steps[..|steps| - 1], steps[|steps| - 1];
      RunOffers(net, start, front);
      RunKeeps(net, start, front);
      StepOffers(net, After(net, start, front), last);
      SitesStay(net, After(net, start, front), last);
    }
  }

  lemma NothingOffered(net: Network, start: World)
    requires net.period > 0 && Initial(net, start)
    ensures OfferInv(Sites(start), start.chain)
  {
  }

  /** In every run every descriptor in a chain document, be it a gateway, a service node or a mix, is that of the own
      node of some authority and authorized by it. */
  lemma ChainDocumentsAreVouched(net: Network, start: World, steps: seq<Step>, e: nat, d: MixDescriptor)
    requires net.period > 0 && net.layers > 0 && Initial(net, start) && Runs(net, start, steps)
    requires e in After(net, start, steps).chain.docs
    requires var doc := After(net, start, steps).chain.docs[e].doc;
             d in doc.gateways || d in doc.services || d in Flat(doc.topology)
    ensures Vouched(Sites(start), d)
  {
    hide After, Runs, Initial, Sites, Vouched, Plain;
    ChainDocumentsAreEven(net, start, steps, e);
    RunOffers(net, start, steps);
    var c := After(net, start, steps).chain;
    assert d in multiset(c.docs[e].list);
    assert (e, d) in c.offered;
  }
}
