/** How each chain document follows from the one before: what the authorities agree on and how much of the layering
    stays, in every run. */
module Lineage {
  import opened Prelude
  import opened Pki
  import opened Topology
  import opened TopologyFacts
  import opened Retention
  import opened Directory
  import opened Appchain
  import opened Safety

  /** A document that does not start its genesis was made from the layering of the one before. */
  lemma FollowsFormer(net: Network, c: Chain, e: nat)
    requires net.layers > 0 && ChainInv(net, c) && e in c.docs && c.docs[e].doc.genesisEpoch < e
    ensures e - 1 in c.docs && c.docs[e].doc.epoch == e
    ensures var (mixes, former) := (Mixes(c.docs[e].list), c.docs[e - 1].doc.topology);
            && NextTopology(mixes, former, net.layers, net.reader(Zeros())) == Some(c.docs[e].doc.topology)
            && EvenPartition(former, Mixes(c.docs[e - 1].list), net.layers)
            && Unique(mixes) && Unique(Mixes(c.docs[e - 1].list)) && Unique(Flat(former))
  {
    hide ChainInv, Places, Rooted, NextTopology, RandomTopology, EvenPartition, Unique;
    DocumentIsGood(net, c, e);
    DocumentIsGood(net, c, e - 1);
    PlacedOnce(net, c, c.docs[e]);
    PlacedOnce(net, c, c.docs[e - 1]);
  }

  lemma DocumentIsGood(net: Network, c: Chain, e: nat)
    requires ChainInv(net, c) && e in c.docs
    ensures GoodBallot(net, c, c.docs[e]) && c.docs[e].doc.epoch == e
  {
    hide GoodBallot;
  }

  lemma PlacedOnce(net: Network, c: Chain, b: Ballot)
    requires Places(net, c, b)
    ensures EvenPartition(b.doc.topology, Mixes(b.list), net.layers)
    ensures Unique(Mixes(b.list)) && Unique(Flat(b.doc.topology))
  {
    FilterUnique(b.list, IsMix);
    UniqueOfBag(Flat(b.doc.topology), Mixes(b.list));
  }

  /** Along one genesis every chain document retains near-optimally: no balanced layering of its mixes keeps more than
      `n mod layers` more of them in the layers of the document before. */
  lemma ChainRetains(net: Network, start: World, steps: seq<Step>, e: nat, u: Layering)
    requires net.period > 0 && net.layers > 0 && Initial(net, start) && Runs(net, start, steps)
    requires e in After(net, start, steps).chain.docs
    requires After(net, start, steps).chain.docs[e].doc.genesisEpoch < e
    requires var mixes := Mixes(After(net, start, steps).chain.docs[e].list);
             |u| == net.layers && Balanced(u) && multiset(Flat(u)) == multiset(mixes)
    ensures e - 1 in After(net, start, steps).chain.docs
    ensures var docs := After(net, start, steps).chain.docs;
            var (t, former, n) := (docs[e].doc.topology, docs[e - 1].doc.topology, |Mixes(docs[e].list)|);
            && |t| == net.layers
            && Retained(former, u, net.layers) <= Retained(former, t, net.layers) + n % net.layers
  {
    hide After, Runs, Initial, NextTopology, Inv, PeerInv, ChainInv, Retained, Balanced;
    var c := ReachableChain(net, start, steps);
    FollowsFormer(net, c, e);
    RetentionNearOptimal(Mixes(c.docs[e].list), c.docs[e - 1].doc.topology, net.layers, net.reader(Zeros()), u);
  }

  lemma ReachableChain(net: Network, start: World, steps: seq<Step>) returns (c: Chain)
    requires net.period > 0 && net.layers > 0 && Initial(net, start) && Runs(net, start, steps)
    ensures c == After(net, start, steps).chain && ChainInv(net, c)
  {
    RunKeeps(net, start, steps);
    c := After(net, start, steps).chain;
  }

  /** When the mixes of two consecutive documents of one genesis are the same nodes, at most `n mod layers` of them
      change their layer, and none if that is 0 or 1. */
  lemma UnchangedMixesStay(net: Network, start: World, steps: seq<Step>, e: nat)
    requires net.period > 0 && net.layers > 0 && Initial(net, start) && Runs(net, start, steps)
    requires e in After(net, start, steps).chain.docs && e > 0 && e - 1 in After(net, start, steps).chain.docs
    requires After(net, start, steps).chain.docs[e].doc.genesisEpoch < e
    requires var docs := After(net, start, steps).chain.docs; Ids(Mixes(docs[e].list)) == Ids(Mixes(docs[e - 1].list))
    ensures var docs := After(net, start, steps).chain.docs;
            var (t, former, n) := (docs[e].doc.topology, docs[e - 1].doc.topology, |Mixes(docs[e].list)|);
            && |t| == net.layers == |former|
            && Retained(former, t, net.layers) >= n - n % net.layers
            && (n % net.layers <= 1 ==> forall i | 0 <= i < net.layers :: Ids(t[i]) == Ids(former[i]))
  {
    hide After, Runs, Initial, NextTopology, Inv, PeerInv, ChainInv, Retained;
    var c := ReachableChain(net, start, steps);
    FollowsFormer(net, c, e);
    var before := c.docs[e - 1];
    UnchangedNodesStay(Mixes(c.docs[e].list), Mixes(before.list), before.doc.topology, net.layers, net.reader(Zeros()));
  }

  /** Two votes for one epoch that were made from one list are the same vote exactly if both or neither restart the
      genesis; whoever made them, and whatever else they had seen. */
  lemma BallotsAgreeExactly(net: Network, start: World, steps: seq<Step>, a: Ballot, b: Ballot)
    requires net.period > 0 && net.layers > 0 && Initial(net, start) && Runs(net, start, steps)
    requires a in After(net, start, steps).chain.ballots && b in After(net, start, steps).chain.ballots
    requires a.doc.epoch == b.doc.epoch && a.list == b.list
    ensures a.doc == b.doc <==> (Restarted(a.doc) <==> Restarted(b.doc))
  {
    hide After, Runs, Initial, Inv, PeerInv;
    var c := ReachableChain(net, start, steps);
    SameBallots(net, c, a, b);
  }

  /** The document starts a new genesis. */
  predicate Restarted(doc: Document) {
    doc.genesisEpoch == doc.epoch
  }

  lemma SameBallots(net: Network, c: Chain, a: Ballot, b: Ballot)
    requires ChainInv(net, c) && a in c.ballots && b in c.ballots && a.doc.epoch == b.doc.epoch && a.list == b.list
    ensures a.doc == b.doc <==> (Restarted(a.doc) <==> Restarted(b.doc))
  {
    hide GoodBallot;
    assert GoodBallot(net, c, a) && GoodBallot(net, c, b);
    if Restarted(a.doc) <==> Restarted(b.doc) {
      SameBallot(net, c, a, b);
    }
  }

  lemma SameBallot(net: Network, c: Chain, a: Ballot, b: Ballot)
    requires GoodBallot(net, c, a) && GoodBallot(net, c, b) && a.doc.epoch == b.doc.epoch && a.list == b.list
    requires Restarted(a.doc) <==> Restarted(b.doc)
    ensures a.doc == b.doc
  {
    hide NextTopology, RandomTopology, EvenPartition, Rooted, Unique, Plain;
    SameGenesis(c, a.doc, b.doc);
    SameFields(net, a, b);
  }

  lemma SameGenesis(c: Chain, a: Document, b: Document)
    requires Rooted(c, a) && Rooted(c, b) && a.epoch == b.epoch && (Restarted(a) <==> Restarted(b))
    ensures a.genesisEpoch == b.genesisEpoch <= a.epoch
  {
    if !Restarted(a) {
      assert c.docs[a.epoch - 1].doc.genesisEpoch == a.genesisEpoch;
      assert c.docs[b.epoch - 1].doc.genesisEpoch == b.genesisEpoch;
    }
  }

  lemma SameFields(net: Network, a: Ballot, b: Ballot)
    requires Plain(net, a.doc) && Plain(net, b.doc) && a.doc.epoch == b.doc.epoch
    requires a.doc.genesisEpoch == b.doc.genesisEpoch && a.doc.topology == b.doc.topology
    requires a.doc.nodesPerLayer == b.doc.nodesPerLayer
    requires a.doc.gateways == b.doc.gateways && a.doc.services == b.doc.services
    ensures a.doc == b.doc
  {
  }
}
