/** The post-response processing of src/rpc.rs: the peer-list fallback of
    `get_current_peers`, the channel filter of `get_current_fees`, and the fee sum of
    `get_revenue_since`. The node's answers arrive as values of `Response`; the RPC
    calls themselves are outside the model. */
module Rpc {
  import opened Types

  /** The channel states the node reports; only `ChanneldNormal` is fully operational. */
  datatype ChannelState =
    | Openingd
    | ChanneldAwaitingLockin
    | ChanneldNormal
    | ChanneldShuttingDown
    | ClosingdSigexchange
    | ClosingdComplete
    | AwaitingUnilateral
    | FundingSpendSeen
    | Onchain
    | DualopendOpenInit
    | DualopendAwaitingLockin

  /** One channel of a peer, with its short channel id and its proportional fee (ppm). */
  datatype Channel = Channel(state: ChannelState, shortChannelId: ChannelId, feePpm: uint32)

  datatype Peer = Peer(connected: bool, channels: seq<Channel>)

  /** A settled forward: when it was received (seconds, fractional) and the fee it earned. */
  datatype Forward = Forward(receivedTime: real, feeMsat: uint64)

  /** The answer of the node to one call. */
  datatype Response =
    | ListPeers(peers: seq<Peer>)
    | ListForwards(forwards: seq<Forward>)
    | OtherResponse

  /** `get_current_peers`: the peers of a `ListPeers` answer; any other answer gives none. */
  function GetCurrentPeers(response: Response): (peers: seq<Peer>)
    ensures response.ListPeers? ==> peers == response.peers
    ensures !response.ListPeers? ==> peers == []
  {
    if response.ListPeers? then response.peers else []
  }

  // ---------------------------------------------------------------------------
  // get_current_fees

  /** The channels of `cs` in state `ChanneldNormal`, in order. */
  function NormalChannels(cs: seq<Channel>): seq<Channel>
  {
    if cs == [] then []
    else
      var last := cs[|cs| - 1];
      NormalChannels(cs[..|cs| - 1]) + (if last.state == ChanneldNormal then [last] else [])
  }

  /** The channels `get_current_fees` records, in the order it visits them: the normal
      channels of the connected peers. */
  function Qualifying(peers: seq<Peer>): seq<Channel>
  {
    if peers == [] then []
    else
      var last := peers[|peers| - 1];
      Qualifying(peers[..|peers| - 1]) + (if last.connected then NormalChannels(last.channels) else [])
  }

  /** Inserting the channels of `cs` one after the other into `m`, a later id
      overwriting an earlier one. */
  function InsertAll(m: map<ChannelId, uint32>, cs: seq<Channel>): map<ChannelId, uint32>
  {
    if cs == [] then m
    else
      var last := cs[|cs| - 1];
      InsertAll(m, cs[..|cs| - 1])[last.shortChannelId := last.feePpm]
  }

  /** The map `get_current_fees` builds from a peer list. */
  function CurrentFees(peers: seq<Peer>): map<ChannelId, uint32>
  {
    InsertAll(map[], Qualifying(peers))
  }

  /** `get_current_fees`: walks the peers, skips the disconnected ones, and inserts each
      normal channel's id and ppm fee into a fresh map. */
  method GetCurrentFees(response: Response) returns (fees: map<ChannelId, uint32>)
    ensures fees == CurrentFees(GetCurrentPeers(response))
  {
    var peers := GetCurrentPeers(response);
    fees := map[];
    var i := 0;
    while i < |peers|
      invariant 0 <= i <= |peers|
      invariant fees == InsertAll(map[], Qualifying(peers[..i]))
    {
      var peer := peers[i];
      QualifyingStep(peers, i);
      if !peer.connected {
        assert Qualifying(peers[..i]) + [] == Qualifying(peers[..i]);
        i := i + 1;
        continue;
      }
      ghost var before := Qualifying(peers[..i]);
      assert peer.channels[..0] == [] && before + [] == before;
      var j := 0;
      while j < |peer.channels|
        invariant 0 <= j <= |peer.channels|
        invariant fees == InsertAll(map[], before + NormalChannels(peer.channels[..j]))
      {
        var channel := peer.channels[j];
        NormalChannelsStep(peer.channels, j);
        ghost var done := NormalChannels(peer.channels[..j]);
        if channel.state == ChanneldNormal {
          InsertAllSnoc(map[], before + done, channel);
          assert before + (done + [channel]) == before + done + [channel];
          fees := fees[channel.shortChannelId := channel.feePpm];
        } else {
          assert done + [] == done;
        }
        j := j + 1;
      }
      assert peer.channels[..j] == peer.channels;
      i := i + 1;
    }
    assert peers[..i] == peers;
  }

  lemma QualifyingStep(peers: seq<Peer>, i: nat)
    requires i < |peers|
    ensures Qualifying(peers[..i + 1]) ==
      Qualifying(peers[..i]) + (if peers[i].connected then NormalChannels(peers[i].channels) else [])
  {
    assert peers[..i + 1][..i] == peers[..i];
  }

  lemma NormalChannelsStep(cs: seq<Channel>, j: nat)
    requires j < |cs|
    ensures NormalChannels(cs[..j + 1]) ==
      NormalChannels(cs[..j]) + (if cs[j].state == ChanneldNormal then [cs[j]] else [])
  {
    assert cs[..j + 1][..j] == cs[..j];
  }

  lemma InsertAllSnoc(m: map<ChannelId, uint32>, cs: seq<Channel>, c: Channel)
    ensures InsertAll(m, cs + [c]) == InsertAll(m, cs)[c.shortChannelId := c.feePpm]
  {
    assert (cs + [c])[..|cs|] == cs;
  }

  lemma {:induction false} NormalChannelsMembers(cs: seq<Channel>, c: Channel)
    ensures c in NormalChannels(cs) <==> c in cs && c.state == ChanneldNormal
  {
    if cs != [] {
      NormalChannelsMembers(cs[..|cs| - 1], c);
      assert cs == cs[..|cs| - 1] + [cs[|cs| - 1]];
    }
  }

  lemma {:induction false} QualifyingAppend(a: seq<Peer>, b: seq<Peer>)
    ensures Qualifying(a + b) == Qualifying(a) + Qualifying(b)
  {
    if b == [] {
      assert a + b == a;
    } else {
      var last := b[|b| - 1];
      assert (a + b)[..|a + b| - 1] == a + b[..|b| - 1];
      QualifyingAppend(a, b[..|b| - 1]);
    }
  }

  /** A channel is recorded exactly when some connected peer has it in state `ChanneldNormal`. */
  lemma {:induction false} QualifyingMembers(peers: seq<Peer>, c: Channel)
    ensures c in Qualifying(peers) <==>
      c.state == ChanneldNormal && exists p :: 0 <= p < |peers| && peers[p].connected && c in peers[p].channels
  {
    if peers != [] {
      var init, last := peers[..|peers| - 1], peers[|peers| - 1];
      QualifyingMembers(init, c);
      NormalChannelsMembers(last.channels, c);
      assert peers == init + [last];
      if c in Qualifying(peers) && !(c in Qualifying(init)) {
        assert peers[|peers| - 1].connected && c in peers[|peers| - 1].channels;
      }
      if c.state == ChanneldNormal && exists p :: 0 <= p < |peers| && peers[p].connected && c in peers[p].channels {
        var p :| 0 <= p < |peers| && peers[p].connected && c in peers[p].channels;
        if p < |peers| - 1 {
          assert init[p] == peers[p];
        }
      }
    }
  }

  /** The keys after inserting `cs` are the keys of `m` and the ids of `cs`, nothing else. */
  lemma {:induction false} InsertAllKeys(m: map<ChannelId, uint32>, cs: seq<Channel>, id: ChannelId)
    ensures id in InsertAll(m, cs) <==> id in m || exists k :: 0 <= k < |cs| && cs[k].shortChannelId == id
  {
    if cs != [] {
      var init := cs[..|cs| - 1];
      InsertAllKeys(m, init, id);
      if exists k :: 0 <= k < |cs| && cs[k].shortChannelId == id {
        var k :| 0 <= k < |cs| && cs[k].shortChannelId == id;
        if k < |cs| - 1 {
          assert init[k] == cs[k];
        }
      }
    }
  }

  /** A channel whose id does not occur later in `cs` decides the value of that id. */
  lemma {:induction false} InsertAllLastWins(m: map<ChannelId, uint32>, cs: seq<Channel>, j: nat)
    requires j < |cs|
    requires forall k :: j < k < |cs| ==> cs[k].shortChannelId != cs[j].shortChannelId
    ensures cs[j].shortChannelId in InsertAll(m, cs)
    ensures InsertAll(m, cs)[cs[j].shortChannelId] == cs[j].feePpm
  {
    if j < |cs| - 1 {
      InsertAllLastWins(m, cs[..|cs| - 1], j);
    }
  }

  /** Every value inserted comes from a channel of `cs` with that id (or was in `m`). */
  lemma {:induction false} InsertAllValues(m: map<ChannelId, uint32>, cs: seq<Channel>, id: ChannelId)
    requires id in InsertAll(m, cs) && id !in m
    ensures exists k :: 0 <= k < |cs| && cs[k].shortChannelId == id && cs[k].feePpm == InsertAll(m, cs)[id]
  {
    var init, last := cs[..|cs| - 1], cs[|cs| - 1];
    if last.shortChannelId != id {
      InsertAllValues(m, init, id);
      var k :| 0 <= k < |init| && init[k].shortChannelId == id && init[k].feePpm == InsertAll(m, init)[id];
      assert cs[k] == init[k];
    } else {
      assert cs[|cs| - 1].shortChannelId == id;
    }
  }

  /** The keys of `get_current_fees`'s map are exactly the ids of the normal channels of
      connected peers. */
  lemma CurrentFeesKeys(peers: seq<Peer>, id: ChannelId)
    ensures id in CurrentFees(peers) <==>
      exists c :: c in Qualifying(peers) && c.shortChannelId == id
  {
    var q := Qualifying(peers);
    InsertAllKeys(map[], q, id);
    if exists c :: c in q && c.shortChannelId == id {
      var c :| c in q && c.shortChannelId == id;
      var k :| 0 <= k < |q| && q[k] == c;
    }
  }

  /** Each value of the map is the fee of a normal channel of a connected peer carrying
      that id: nothing from a disconnected peer or a channel in another state gets in. */
  lemma CurrentFeesFromQualifying(peers: seq<Peer>, id: ChannelId)
    requires id in CurrentFees(peers)
    ensures exists p, c :: (0 <= p < |peers| && peers[p].connected && c in peers[p].channels &&
      c.state == ChanneldNormal && c.shortChannelId == id && c.feePpm == CurrentFees(peers)[id])
  {
    var q := Qualifying(peers);
    InsertAllValues(map[], q, id);
    var k :| 0 <= k < |q| && q[k].shortChannelId == id && q[k].feePpm == CurrentFees(peers)[id];
    QualifyingMembers(peers, q[k]);
  }

  /** Among channels recorded under the same id, the last one visited wins. */
  lemma CurrentFeesLastWins(peers: seq<Peer>, j: nat)
    requires j < |Qualifying(peers)|
    requires forall k :: j < k < |Qualifying(peers)| ==>
      Qualifying(peers)[k].shortChannelId != Qualifying(peers)[j].shortChannelId
    ensures Qualifying(peers)[j].shortChannelId in CurrentFees(peers)
    ensures CurrentFees(peers)[Qualifying(peers)[j].shortChannelId] == Qualifying(peers)[j].feePpm
  {
    InsertAllLastWins(map[], Qualifying(peers), j);
  }

  /** A disconnected peer changes nothing, wherever it stands in the list. */
  lemma DisconnectedPeerIgnored(before: seq<Peer>, channels: seq<Channel>, after: seq<Peer>)
    ensures CurrentFees(before + [Peer(false, channels)] + after) == CurrentFees(before + after)
  {
    var off := Peer(false, channels);
    QualifyingAppend(before + [off], after);
    QualifyingAppend(before, [off]);
    assert [off][..0] == [];
    assert Qualifying([off]) == Qualifying([]) + [] == [];
    assert Qualifying(before + [off]) == Qualifying(before);
    QualifyingAppend(before, after);
  }

  // ---------------------------------------------------------------------------
  // get_revenue_since

  /** The sum of the fees of the forwards received strictly after `cutoff`. */
  function RevenueAfter(forwards: seq<Forward>, cutoff: real): nat
  {
    if forwards == [] then 0
    else
      var last := forwards[|forwards| - 1];
      RevenueAfter(forwards[..|forwards| - 1], cutoff) + (if last.receivedTime > cutoff then last.feeMsat else 0)
  }

  /** `get_revenue_since` after the cutoff is known: on a `ListForwards` answer, adds up
      the fee of every forward received strictly after the cutoff; otherwise 0. */
  method GetRevenueSince(response: Response, cutoff: real) returns (revenue: nat)
    ensures response.ListForwards? ==> revenue == RevenueAfter(response.forwards, cutoff)
    ensures !response.ListForwards? ==> revenue == 0
  {
    revenue := 0;
    if response.ListForwards? {
      var forwards := response.forwards;
      for i := 0 to |forwards|
        invariant revenue == RevenueAfter(forwards[..i], cutoff)
      {
        assert forwards[..i + 1][..i] == forwards[..i];
        if forwards[i].receivedTime > cutoff {
          revenue := revenue + forwards[i].feeMsat;
        }
      }
      assert forwards[..|forwards|] == forwards;
    }
  }

  lemma {:induction false} RevenueAfterAppend(a: seq<Forward>, b: seq<Forward>, cutoff: real)
    ensures RevenueAfter(a + b, cutoff) == RevenueAfter(a, cutoff) + RevenueAfter(b, cutoff)
  {
    if b == [] {
      assert a + b == a;
    } else {
      assert (a + b)[..|a + b| - 1] == a + b[..|b| - 1];
      RevenueAfterAppend(a, b[..|b| - 1], cutoff);
    }
  }

  /** Every forward received after the cutoff is counted in full. */
  lemma {:induction false} LaterForwardCounted(forwards: seq<Forward>, cutoff: real, k: nat)
    requires k < |forwards| && forwards[k].receivedTime > cutoff
    ensures forwards[k].feeMsat <= RevenueAfter(forwards, cutoff)
  {
    if k < |forwards| - 1 {
      LaterForwardCounted(forwards[..|forwards| - 1], cutoff, k);
    }
  }

  /** The sum is zero exactly when no forward after the cutoff earned a fee; in particular
      a forward received exactly at the cutoff is not counted. */
  lemma {:induction false} RevenueZeroIff(forwards: seq<Forward>, cutoff: real)
    ensures RevenueAfter(forwards, cutoff) == 0 <==>
      forall k :: 0 <= k < |forwards| && forwards[k].receivedTime > cutoff ==> forwards[k].feeMsat == 0
  {
    if forwards != [] {
      var init := forwards[..|forwards| - 1];
      RevenueZeroIff(init, cutoff);
      if RevenueAfter(forwards, cutoff) == 0 {
        forall k | 0 <= k < |forwards| && forwards[k].receivedTime > cutoff
          ensures forwards[k].feeMsat == 0
        {
          if k < |forwards| - 1 {
            assert init[k] == forwards[k];
          }
        }
      } else {
        if RevenueAfter(init, cutoff) == 0 {
          assert forwards[|forwards| - 1].receivedTime > cutoff && forwards[|forwards| - 1].feeMsat != 0;
        } else {
          var k :| 0 <= k < |init| && init[k].receivedTime > cutoff && init[k].feeMsat != 0;
          assert forwards[k] == init[k];
        }
      }
    }
  }

  /** A later cutoff never counts more. */
  lemma {:induction false} RevenueAntitone(forwards: seq<Forward>, early: real, late: real)
    requires early <= late
    ensures RevenueAfter(forwards, late) <= RevenueAfter(forwards, early)
  {
    if forwards != [] {
      RevenueAntitone(forwards[..|forwards| - 1], early, late);
    }
  }

  // ---------------------------------------------------------------------------
  // The cutoff of get_revenue_since

  const SECONDS_PER_HOUR: int := 3600

  /** The cutoff as src/rpc.rs computes it: the current time PLUS `epoch_length` hours. */
  function CutoffAsWritten(now: int, epochLength: uint32): real
  {
    (now + epochLength * SECONDS_PER_HOUR) as real
  }

  /** With that cutoff, no forward received up to now is ever counted. */
  lemma AsWrittenCountsNothingYet(forwards: seq<Forward>, now: int, epochLength: uint32)
    requires forall k :: 0 <= k < |forwards| ==> forwards[k].receivedTime <= now as real
    ensures RevenueAfter(forwards, CutoffAsWritten(now, epochLength)) == 0
  {
    RevenueZeroIff(forwards, CutoffAsWritten(now, epochLength));
  }

  /** A forward ten minutes old, earning 1000 msat, with a one-hour epoch: missed. */
  lemma AsWrittenMissesRecentForward()
    ensures RevenueAfter([Forward(999_400.0, 1000)], CutoffAsWritten(1_000_000, 1)) == 0
    ensures RevenueAfter([Forward(999_400.0, 1000)], EpochStart(1_000_000, 1)) == 1000
  {
    assert [Forward(999_400.0, 1000)][..0] == [];
  }

  /** The evidently intended cutoff: the start of the epoch, `epoch_length` hours ago. */
  function EpochStart(now: int, epochLength: uint32): real
  {
    (now - epochLength * SECONDS_PER_HOUR) as real
  }

  /** With the epoch start as cutoff, the revenue of the last epoch is counted: every
      forward received in the epoch adds its fee, and the sum is zero only when none of
      them earned anything. */
  lemma EpochStartCountsEpochForwards(forwards: seq<Forward>, now: int, epochLength: uint32, k: nat)
    requires k < |forwards|
    requires EpochStart(now, epochLength) < forwards[k].receivedTime
    ensures forwards[k].feeMsat <= RevenueAfter(forwards, EpochStart(now, epochLength))
    ensures forwards[k].feeMsat > 0 ==> RevenueAfter(forwards, EpochStart(now, epochLength)) > 0
  {
    LaterForwardCounted(forwards, EpochStart(now, epochLength), k);
  }
}
