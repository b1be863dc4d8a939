/** The halo exchange of one generation, as the messages that generation
    posts (messages of other generations are not in the pool). Every rank posts two
    sends: its first row to the rank above, tagged "from beneath" (that is
    where the row comes from, as its receiver sees it), and its last row to
    the rank beneath, tagged "from above". Every rank then receives the
    message tagged "from above" whose source is its rank above, and the one
    tagged "from beneath" whose source is its rank beneath. */
module Exchange {

  import opened Grids
  import opened Decomposition

  /** Message tags, with the program's values. */
  const MSG_FROM_BENEATH: int := 11
  const MSG_FROM_ABOVE: int := 12

  /** A posted point-to-point send. */
  datatype Message = Message(source: nat, dest: nat, tag: int, payload: Row)

  /** The two rows a rank receives: the last row of the band above it and
      the first row of the band beneath it. */
  datatype Halo = Halo(fromAbove: Row, fromBeneath: Row)

  /** The two sends rank `r` posts: row 0 up, the last row down. Each tag
      names the side the row arrives from as its receiver sees it: the
      receiver of the first send has `r` as its rank beneath, the receiver
      of the second has `r` as its rank above. */
  function Outbox(bands: seq<Grid>, r: nat): (out: seq<Message>)
    requires r < |bands| && |bands[r]| >= 1
    ensures |out| == 2
    ensures forall k :: 0 <= k < 2 ==> out[k].source == r && out[k].dest < |bands|
    ensures out[0].dest == Above(r, |bands|) && out[1].dest == Beneath(r, |bands|)
    ensures out[0].tag == MSG_FROM_BENEATH && Beneath(out[0].dest, |bands|) == r && out[0].payload == bands[r][0]
    ensures out[1].tag == MSG_FROM_ABOVE && Above(out[1].dest, |bands|) == r
      && out[1].payload == bands[r][|bands[r]| - 1]
  {
    var procs := |bands|;
    RingInverse(r, procs);
    [Message(r, Above(r, procs), MSG_FROM_BENEATH, bands[r][0]),
     Message(r, Beneath(r, procs), MSG_FROM_ABOVE, bands[r][|bands[r]| - 1])]
  }

  /** Every send of the generation, rank by rank: entry `2 * r + t` is send
      `t` of rank `r`. */
  function Posted(bands: seq<Grid>): (msgs: seq<Message>)
    requires forall r :: 0 <= r < |bands| ==> |bands[r]| >= 1
    ensures |msgs| == 2 * |bands|
  {
    seq(2 * |bands|, k requires 0 <= k < 2 * |bands| => Outbox(bands, k / 2)[k % 2])
  }

  /** The pool holds rank `r`'s two sends, in order, at entries `2 * r` and
      `2 * r + 1`, and every message in it travels between valid ranks. */
  lemma PostedAt(bands: seq<Grid>, r: nat)
    requires forall r :: 0 <= r < |bands| ==> |bands[r]| >= 1
    requires r < |bands|
    ensures var msgs := Posted(bands);
      msgs[2 * r] == Outbox(bands, r)[0] && msgs[2 * r + 1] == Outbox(bands, r)[1]
    ensures var msgs := Posted(bands);
      forall k :: 0 <= k < |msgs| ==> msgs[k].source < |bands| && msgs[k].dest < |bands|
  {
    var msgs := Posted(bands);
    forall k | 0 <= k < |msgs|
      ensures msgs[k].source < |bands| && msgs[k].dest < |bands|
    {
      assert msgs[k] == Outbox(bands, k / 2)[k % 2];
    }
  }

  /** A receive posted by `dest` for `source` and `tag` accepts `m`. */
  predicate Matches(m: Message, dest: nat, source: nat, tag: int) {
    m.dest == dest && m.source == source && m.tag == tag
  }

  /** A receive: the payload of the first posted message it accepts, or
      `None` when no message matches (the program would then wait forever). */
  function Receive(msgs: seq<Message>, dest: nat, source: nat, tag: int): (r: Option<Row>)
    ensures r.None? <==> forall k :: 0 <= k < |msgs| ==> !Matches(msgs[k], dest, source, tag)
    ensures r.Some? ==> exists k :: 0 <= k < |msgs| && Matches(msgs[k], dest, source, tag) && msgs[k].payload == r.value
  {
    if |msgs| == 0 then None
    else if Matches(msgs[0], dest, source, tag) then Some(msgs[0].payload)
    else
      var rest := Receive(msgs[1..], dest, source, tag);
      assert forall k :: 1 <= k < |msgs| ==> msgs[k] == msgs[1..][k - 1];
      rest
  }

  /** Each of rank `r`'s receives is matched, and by exactly the row the
      wiring intends: the last row of its rank above and the first row of
      its rank beneath. Among the sends of one generation, any other
      message the receive could accept carries the same row, so within a
      generation the result does not depend on arrival order. Ranks are not
      synchronised between generations: a neighbour may already have posted
      its next generation's row with the same source, destination and tag.
      The program then relies on such messages being matched in the order
      they were sent; the model keeps each generation's sends apart. */
  lemma Delivery(bands: seq<Grid>, h: nat, w: nat, r: nat)
    requires Bands(bands, h, w) && r < |bands|
    ensures var procs := |bands|;
      Receive(Posted(bands), r, Above(r, procs), MSG_FROM_ABOVE) == Some(bands[Above(r, procs)][h - 1])
    ensures var procs := |bands|;
      Receive(Posted(bands), r, Beneath(r, procs), MSG_FROM_BENEATH) == Some(bands[Beneath(r, procs)][0])
  {
    DeliveryFromAbove(bands, h, w, r);
    DeliveryFromBeneath(bands, h, w, r);
  }

  /** The receive from above takes the last row of the rank above. */
  lemma DeliveryFromAbove(bands: seq<Grid>, h: nat, w: nat, r: nat)
    requires Bands(bands, h, w) && r < |bands|
    ensures var procs := |bands|;
      Receive(Posted(bands), r, Above(r, procs), MSG_FROM_ABOVE) == Some(bands[Above(r, procs)][h - 1])
  {
    var msgs := Posted(bands);
    var a := Above(r, |bands|);
    RingInverse(r, |bands|);
    forall k | 0 <= k < |msgs| && Matches(msgs[k], r, a, MSG_FROM_ABOVE)
      ensures msgs[k].payload == bands[a][h - 1]
    {
      MatchFromAbove(bands, h, w, a, k);
    }
    PostedAt(bands, a);
    assert Matches(msgs[2 * a + 1], r, a, MSG_FROM_ABOVE);
  }

  /** The receive from beneath takes the first row of the rank beneath. */
  lemma DeliveryFromBeneath(bands: seq<Grid>, h: nat, w: nat, r: nat)
    requires Bands(bands, h, w) && r < |bands|
    ensures var procs := |bands|;
      Receive(Posted(bands), r, Beneath(r, procs), MSG_FROM_BENEATH) == Some(bands[Beneath(r, procs)][0])
  {
    var msgs := Posted(bands);
    var b := Beneath(r, |bands|);
    RingInverse(r, |bands|);
    forall k | 0 <= k < |msgs| && Matches(msgs[k], r, b, MSG_FROM_BENEATH)
      ensures msgs[k].payload == bands[b][0]
    {
      MatchFromBeneath(bands, h, w, b, k);
    }
    PostedAt(bands, b);
    assert Matches(msgs[2 * b], r, b, MSG_FROM_BENEATH);
  }

  /** A posted message from rank `a` tagged "from above" is `a`'s send of
      its last row. */
  lemma MatchFromAbove(bands: seq<Grid>, h: nat, w: nat, a: nat, k: nat)
    requires Bands(bands, h, w) && k < 2 * |bands|
    requires Posted(bands)[k].source == a && Posted(bands)[k].tag == MSG_FROM_ABOVE
    ensures a < |bands| && Posted(bands)[k].payload == bands[a][h - 1]
  {
    assert Posted(bands)[k] == Outbox(bands, k / 2)[k % 2];
  }

  /** A posted message from rank `b` tagged "from beneath" is `b`'s send of
      its first row. */
  lemma MatchFromBeneath(bands: seq<Grid>, h: nat, w: nat, b: nat, k: nat)
    requires Bands(bands, h, w) && k < 2 * |bands|
    requires Posted(bands)[k].source == b && Posted(bands)[k].tag == MSG_FROM_BENEATH
    ensures b < |bands| && Posted(bands)[k].payload == bands[b][0]
  {
    assert Posted(bands)[k] == Outbox(bands, k / 2)[k % 2];
  }

  /** What rank `r` holds after waiting on both receives. */
  function ReceiveHalo(bands: seq<Grid>, h: nat, w: nat, r: nat): (halo: Halo)
    requires Bands(bands, h, w) && r < |bands|
    ensures halo.fromAbove == bands[Above(r, |bands|)][h - 1]
    ensures halo.fromBeneath == bands[Beneath(r, |bands|)][0]
  {
    var procs := |bands|;
    var msgs := Posted(bands);
    Delivery(bands, h, w, r);
    Halo(Receive(msgs, r, Above(r, procs), MSG_FROM_ABOVE).value,
         Receive(msgs, r, Beneath(r, procs), MSG_FROM_BENEATH).value)
  }

  /** The halos of every rank for one generation. */
  function HaloExchange(bands: seq<Grid>, h: nat, w: nat): (halos: seq<Halo>)
    requires Bands(bands, h, w)
    ensures |halos| == |bands|
    ensures forall r :: 0 <= r < |bands| ==>
      halos[r] == Halo(bands[Above(r, |bands|)][h - 1], bands[Beneath(r, |bands|)][0])
  {
    seq(|bands|, r requires 0 <= r < |bands| => ReceiveHalo(bands, h, w, r))
  }

  /** Why the tags are needed: with two ranks, both sends of rank 1 go to
      rank 0, so a receive that matched on the source alone could take
      either row. */
  lemma TwoRanksShareBothSends(bands: seq<Grid>, h: nat, w: nat)
    requires Bands(bands, h, w) && |bands| == 2
    ensures var msgs := Posted(bands);
      msgs[2].source == msgs[3].source == 1 && msgs[2].dest == msgs[3].dest == 0
      && msgs[2].payload == bands[1][0] && msgs[3].payload == bands[1][h - 1]
      && msgs[2].tag != msgs[3].tag
  {
    var msgs := Posted(bands);
    assert msgs[2] == Outbox(bands, 1)[0];
    assert msgs[3] == Outbox(bands, 1)[1];
  }
}
