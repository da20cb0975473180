/** The 40 Hz effect engine of the persistent console: it keeps one DMX
    buffer per universe its channels use and, on each tick, walks the
    channels' effect stacks.  The stacks are not evaluated yet, so a tick
    only advances the timestamps. */
module EffectEngineModel {
  import opened Wrappers
  import opened Realtime

  /** A console channel: the universe of its DMX device and its stack of
      effect generators.  The universe lookup goes through classes that are
      not part of this model, so it is stored on the channel directly. */
  datatype Channel = Channel(universe: int, effectGeneratorStack: seq<EffectGenDef>)

  /** `new Integer[512]`: every entry null, not 0. */
  function EmptyBuffer(): (b: seq<Option<int>>)
    ensures |b| == UniverseSize && forall i :: 0 <= i < |b| ==> b[i] == None
  {
    seq(UniverseSize, _ => None)
  }

  /** The distinct universes of a channel list. */
  function Universes(channels: seq<Channel>): set<int> {
    set c | c in channels :: c.universe
  }

  class EffectEngine {
    var channelList: seq<Channel>
    var universeToDmxMap: map<int, seq<Option<int>>>
    var lastTimeStamp: int
    var curTimeStamp: int

    /** Both timestamps start at the construction time `now`. */
    constructor (now: int)
      ensures channelList == [] && universeToDmxMap == map[]
      ensures lastTimeStamp == now && curTimeStamp == now
    {
      channelList := [];
      universeToDmxMap := map[];
      lastTimeStamp := now;
      curTimeStamp := now;
    }

    /** Installs the channel list and rebuilds the universe map from it:
        exactly the universes in use, each with a fresh all-null buffer;
        mappings for universes no longer in use are gone. */
    method SetChannelList(channels: seq<Channel>)
      modifies this
      ensures channelList == channels
      ensures universeToDmxMap.Keys == Universes(channels)
      ensures forall u :: u in universeToDmxMap ==> universeToDmxMap[u] == EmptyBuffer()
      ensures lastTimeStamp == old(lastTimeStamp) && curTimeStamp == old(curTimeStamp)
    {
      channelList := channels;
      RebuildUniverseMapping();
    }

    method RebuildUniverseMapping()
      modifies this
      ensures channelList == old(channelList)
      ensures universeToDmxMap.Keys == Universes(channelList)
      ensures forall u :: u in universeToDmxMap ==> universeToDmxMap[u] == EmptyBuffer()
      ensures lastTimeStamp == old(lastTimeStamp) && curTimeStamp == old(curTimeStamp)
    {
      universeToDmxMap := map[];
      var i := 0;
      while i < |channelList|
        invariant 0 <= i <= |channelList|
        invariant universeToDmxMap.Keys == Universes(channelList[..i])
        invariant forall u :: u in universeToDmxMap ==> universeToDmxMap[u] == EmptyBuffer()
        invariant lastTimeStamp == old(lastTimeStamp) && curTimeStamp == old(curTimeStamp)
        invariant channelList == old(channelList)
      {
        assert channelList[..i + 1] == channelList[..i] + [channelList[i]];
        universeToDmxMap := universeToDmxMap[channelList[i].universe := EmptyBuffer()];
        i := i + 1;
      }
      assert channelList[..i] == channelList;
    }

    /** One tick at time `now`: every channel's stack is visited, the
        universe map and the channels stay as they are, and afterwards the
        last timestamp is this tick's. */
    method LoopAt40Hz(now: int)
      modifies this
      ensures curTimeStamp == now && lastTimeStamp == now
      ensures universeToDmxMap == old(universeToDmxMap) && channelList == old(channelList)
    {
      curTimeStamp := now;
      var i := 0;
      while i < |channelList|
        invariant 0 <= i <= |channelList|
        invariant curTimeStamp == now
        invariant universeToDmxMap == old(universeToDmxMap) && channelList == old(channelList)
      {
        RunChannelEffectStack(channelList[i], universeToDmxMap, lastTimeStamp, curTimeStamp);
        i := i + 1;
      }
      lastTimeStamp := curTimeStamp;
    }

    /** Returns at once, whether or not the stack is empty. */
    static method RunChannelEffectStack(channel: Channel, universeToDmxMap: map<int, seq<Option<int>>>,
                                        lastTimeStamp: int, curTimeStamp: int)
    {
      if |channel.effectGeneratorStack| == 0 {
        return;
      }
      return;
    }
  }

  /** The universes of a non-empty list: the first channel's and the rest's. */
  lemma UniversesCons(channels: seq<Channel>)
    requires channels != []
    ensures Universes(channels) == {channels[0].universe} + Universes(channels[1..])
  {
    assert forall c :: c in channels <==> c == channels[0] || c in channels[1..];
  }

  lemma SubsetAtMost(a: set<int>, b: set<int>)
    requires a <= b
    ensures |a| <= |b|
  {
    assert b == a + (b - a);
  }

  /** Never more universes than channels. */
  lemma {:induction false} UniversesAtMost(channels: seq<Channel>)
    ensures |Universes(channels)| <= |channels|
  {
    if channels != [] {
      UniversesAtMost(channels[1..]);
      UniversesCons(channels);
    }
  }

  /** The map holds one buffer per universe, never more buffers than
      channels, and fewer as soon as two channels share a universe. */
  lemma SharedUniverseOneBuffer(channels: seq<Channel>)
    ensures forall i :: 0 <= i < |channels| ==> channels[i].universe in Universes(channels)
    ensures |Universes(channels)| <= |channels|
    ensures (exists i, j :: 0 <= i < j < |channels| && channels[i].universe == channels[j].universe) ==>
      |Universes(channels)| < |channels|
  {
    forall i | 0 <= i < |channels| ensures channels[i].universe in Universes(channels) {
      assert channels[i] in channels;
    }
    UniversesAtMost(channels);
    if exists i, j :: 0 <= i < j < |channels| && channels[i].universe == channels[j].universe {
      var i, j :| 0 <= i < j < |channels| && channels[i].universe == channels[j].universe;
      var rest := channels[..j] + channels[j + 1..];
      forall c | c in channels ensures c.universe in Universes(rest) {
        var k :| 0 <= k < |channels| && channels[k] == c;
        if k == j {
          assert rest[i] == channels[i];
        } else if k < j {
          assert rest[k] == c;
        } else {
          assert rest[k - 1] == c;
        }
      }
      UniversesAtMost(rest);
      SubsetAtMost(Universes(channels), Universes(rest));
    }
  }
}
