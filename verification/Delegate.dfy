/** The gossip delegate: the node's own state, the text it prints from it, what it makes of
    other nodes' texts, and application messages framed for broadcast. */
module Delegate {
  import opened Options
  import opened Base64
  import opened Invention
  import opened Metadata

  datatype MemberState = Alive | Suspect | Dead | Left | OtherState

  datatype NodeState = NodeAlive | NodeSuspect | NodeDead | NodeLeft

  datatype NodeInfo = NodeInfo(id: string, meta: Meta, state: NodeState)

  datatype Delivery = Delivery(from: string, msg: string)

  // ---- Message frames --------------------------------------------------------------

  const FRAME_MARK: char := '\U{01}'

  function Frame(nodeID: string, msg: string): string {
    [FRAME_MARK] + nodeID + "|" + msg
  }

  /** The handler calls a message causes. */
  function Deliveries(hasHandler: bool, msg: string): seq<Delivery> {
    if hasHandler && |msg| > 1 && msg[0] == FRAME_MARK && '|' in msg[1..]
    then
      var body := msg[1..];
      var i := BarAt(body);
      [Delivery(body[..i], body[i + 1..])]
    else []
  }

  /** The position of the first separator. */
  function BarAt(s: string): (i: nat)
    requires '|' in s
    ensures i < |s| && s[i] == '|' && NoBar(s[..i])
  {
    if s[0] == '|' then 0
    else
      var i := BarAt(s[1..]) + 1;
      assert s[..i] == [s[0]] + s[1..][..i - 1];
      i
  }

  lemma BarIsFirst(s: string, i: nat)
    requires i < |s| && s[i] == '|' && NoBar(s[..i])
    ensures BarAt(s) == i
  {
    var j := BarAt(s);
    forall k | 0 <= k < i
      ensures s[k] != '|'
    {
      assert s[..i][k] in s[..i];
    }
    forall k | 0 <= k < j
      ensures s[k] != '|'
    {
      assert s[..j][k] in s[..j];
    }
  }

  /** A framed message reaches the handler exactly once, and with the sender's ID and the
      message intact if and only if the ID does not contain the separator. */
  lemma FrameArrives(nodeID: string, msg: string)
    ensures var ds := Deliveries(true, Frame(nodeID, msg));
            |ds| == 1 && (ds[0] == Delivery(nodeID, msg) <==> NoBar(nodeID))
  {
    var body := nodeID + "|" + msg;
    assert Frame(nodeID, msg)[1..] == body;
    assert body[|nodeID|] == '|' && body[..|nodeID|] == nodeID;
    if NoBar(nodeID) {
      BarIsFirst(body, |nodeID|);
      assert body[|nodeID| + 1..] == msg;
    }
  }

  /** The message is the byte 0x01, an ID without the separator, the separator, the body. */
  predicate IsFrame(msg: string, id: string, body: string) {
    '|' !in id && msg == "\U{01}" + id + "|" + body
  }

  lemma FrameParts(msg: string, id: string, body: string)
    requires IsFrame(msg, id, body)
    ensures |msg| > 1 && msg[0] == FRAME_MARK && '|' in msg[1..]
    ensures BarAt(msg[1..]) == |id| && msg[1..][..|id|] == id && msg[1..][|id| + 1..] == body
  {
    var rest := id + "|" + body;
    assert "\U{01}" + id + "|" + body == "\U{01}" + rest;
    assert msg[1..] == rest;
    assert rest[|id|] == '|' && rest[..|id|] == id;
    BarIsFirst(rest, |id|);
  }

  lemma FrameIsDelivered(hasHandler: bool, msg: string, id: string, body: string)
    requires IsFrame(msg, id, body)
    ensures Deliveries(hasHandler, msg) == if hasHandler then [Delivery(id, body)] else []
  {
    hide IsFrame, BarAt;
    FrameParts(msg, id, body);
  }

  lemma DeliveryIsFrame(hasHandler: bool, msg: string)
    ensures var ds := Deliveries(hasHandler, msg);
            ds == [] || (ds == [ds[0]] && hasHandler && IsFrame(msg, ds[0].from, ds[0].msg))
  {
    hide BarAt;
    if Deliveries(hasHandler, msg) != [] {
      var rest := msg[1..];
      var i := BarAt(rest);
      FrameOf(msg, rest[..i], rest[i + 1..]);
    }
  }

  lemma FrameOf(msg: string, id: string, body: string)
    requires NoBar(id) && msg != "" && msg[0] == FRAME_MARK && msg[1..] == id + "|" + body
    ensures IsFrame(msg, id, body)
  {
    assert msg == [msg[0]] + msg[1..];
    assert "\U{01}" + id + "|" + body == ['\U{01}'] + (id + "|" + body);
  }

  /** A message is delivered, once, with an ID and a body, if and only if there is a handler
      and the message is their frame; nothing else is delivered. */
  lemma DeliveredExactly(hasHandler: bool, msg: string, id: string, body: string)
    ensures Deliveries(hasHandler, msg) == [Delivery(id, body)] <==> hasHandler && IsFrame(msg, id, body)
    ensures Deliveries(hasHandler, msg) == [] <==> !hasHandler || forall i, b :: !IsFrame(msg, i, b)
  {
    hide IsFrame, Deliveries;
    DeliveryIsFrame(hasHandler, msg);
    forall i, b | IsFrame(msg, i, b)
      ensures Deliveries(hasHandler, msg) == if hasHandler then [Delivery(i, b)] else []
    {
      FrameIsDelivered(hasHandler, msg, i, b);
    }
  }

  // ---- The delegate object -----------------------------------------------------------

  /** `broadcasts` is the queue of frames, absent before gossip has started; `delivered`
      records the calls of the application's handler. */
  class Delegate {
    var advertiseAddr: string
    var raftAddr: string
    var grpcAddr: string
    var bootstrapped: bool
    var appMeta: seq<Byte>
    var broadcasts: Option<seq<string>>
    var hasHandler: bool
    var delivered: seq<Delivery>

    constructor (advertiseAddr: string, raftAddr: string)
      ensures Info() == Meta(advertiseAddr, raftAddr, "", false, [])
      ensures broadcasts == None && !hasHandler && delivered == []
    {
      this.advertiseAddr, this.raftAddr, this.grpcAddr := advertiseAddr, raftAddr, "";
      bootstrapped, appMeta, broadcasts, hasHandler, delivered := false, [], None, false, [];
    }

    function Info(): Meta
      reads this
    {
      Meta(advertiseAddr, raftAddr, grpcAddr, bootstrapped, appMeta)
    }

    method SetBootstrapped(b: bool)
      modifies this`bootstrapped
      ensures Info() == old(Info()).(bootstrapped := b)
    {
      bootstrapped := b;
    }

    method SetGRPCAddr(addr: string)
      modifies this`grpcAddr
      ensures Info() == old(Info()).(grpcAddr := addr)
    {
      grpcAddr := addr;
    }

    method SetRaftAddr(addr: string)
      modifies this`raftAddr
      ensures Info() == old(Info()).(raftAddr := addr)
    {
      raftAddr := addr;
    }

    method SetAppMeta(meta: seq<Byte>)
      modifies this`appMeta
      ensures Info() == old(Info()).(appMeta := meta)
    {
      appMeta := meta;
    }

    method SetOnAppMessage(handler: bool)
      modifies this`hasHandler
      ensures hasHandler == handler
    {
      hasHandler := handler;
    }

    method SetBroadcastQueue(q: Option<seq<string>>)
      modifies this`broadcasts
      ensures broadcasts == q
    {
      broadcasts := q;
    }

    /** The printed fields, cut at the limit; a receiver of the text gets everything back
        exactly when the text was not cut and no address contains the separator, and never
        more than is so. */
    method NodeMeta(limit: nat) returns (text: string)
      ensures text == Cut(Print(Info()), limit)
      ensures |text| <= limit
      ensures Parse(Split(text)) == Info() <==> |Print(Info())| <= limit && BarFree(Info())
      ensures BarFree(Info()) ==> Below(Parse(Split(text)), Info())
    {
      hide Encode, Parse, Split, Below, BarFree, Print, Text, RaftField, GrpcField, FlagField, AppField;
      ghost var info := Info();
      TextIs(info);
      PrintIs(info);
      var meta := advertiseAddr;
      if raftAddr != "" {
        meta := meta + ("|raft=" + raftAddr);
      } else {
        assert meta + "" == meta;
      }
      ghost var withRaft := info.address + Text(RaftField(info));
      assert meta == withRaft;
      if grpcAddr != "" {
        meta := meta + ("|grpc=" + grpcAddr);
      } else {
        assert meta + "" == meta;
      }
      ghost var withGrpc := withRaft + Text(GrpcField(info));
      assert meta == withGrpc;
      if bootstrapped {
        meta := meta + "|bootstrapped";
      } else {
        assert meta + "" == meta;
      }
      ghost var withFlag := withGrpc + Text(FlagField(info));
      assert meta == withFlag;
      if |appMeta| > 0 {
        meta := meta + ("|app=" + Encode(appMeta));
      } else {
        assert meta + "" == meta;
      }
      assert meta == Print(info);
      ReceivedExactly(info, limit);
      if BarFree(info) {
        CutNeverInvents(info, limit);
      }
      text := if |meta| > limit then meta[..limit] else meta;
    }

    method NotifyMsg(msg: string)
      modifies this`delivered
      ensures delivered == old(delivered) + Deliveries(hasHandler, msg)
      ensures !hasHandler ==> delivered == old(delivered)
      ensures forall id, body | hasHandler && IsFrame(msg, id, body) :: delivered == old(delivered) + [Delivery(id, body)]
      ensures (forall id, body :: !IsFrame(msg, id, body)) ==> delivered == old(delivered)
    {
      hide IsFrame, BarAt;
      forall id, body
        ensures Deliveries(hasHandler, msg) == [Delivery(id, body)] <==> hasHandler && IsFrame(msg, id, body)
        ensures Deliveries(hasHandler, msg) == [] <==> !hasHandler || forall i, b :: !IsFrame(msg, i, b)
      {
        DeliveredExactly(hasHandler, msg, id, body);
      }
      if |msg| == 0 {
        return;
      }
      if hasHandler && msg[0] == FRAME_MARK && |msg| > 1 {
        var parts := SplitN2(msg[1..]);
        if |parts| == 2 {
          delivered := delivered + [Delivery(parts[0], parts[1])];
        }
      }
    }

    method QueueBroadcast(nodeID: string, msg: string)
      modifies this`broadcasts
      ensures broadcasts == if old(broadcasts).None? then None else Some(old(broadcasts).value + [Frame(nodeID, msg)])
    {
      if broadcasts.None? {
        return;
      }
      var payload := [FRAME_MARK] + (nodeID + "|");
      payload := payload + msg;
      assert payload == Frame(nodeID, msg);
      broadcasts := Some(broadcasts.value + [payload]);
    }
  }

  /** strings.SplitN(s, "|", 2) */
  method SplitN2(s: string) returns (parts: seq<string>)
    ensures parts == if '|' in s then [s[..BarAt(s)], s[BarAt(s) + 1..]] else [s]
  {
    var i := 0;
    while i < |s| && s[i] != '|'
      invariant i <= |s|
      invariant forall j | 0 <= j < i :: s[j] != '|'
    {
      i := i + 1;
    }
    if i == |s| {
      return [s];
    }
    BarIsFirst(s, i);
    return [s[..i], s[i + 1..]];
  }

  method NodeToInfo(name: string, text: string, state: MemberState) returns (info: NodeInfo)
    ensures info.id == name && info.meta == Parse(Split(text))
    ensures forall d, limit: nat | text == Cut(Print(d), limit) && |Print(d)| <= limit && BarFree(d) :: info.meta == d
    ensures info.state.NodeAlive? <==> state.Alive? || state.OtherState?
    ensures (info.state.NodeSuspect? <==> state.Suspect?) && (info.state.NodeDead? <==> state.Dead?)
  {
    hide Decode, Split, BarFree, Print;
    var address, raftAddr, grpcAddr, bootstrapped, appMeta := "", "", "", false, [];
    var parts := Split(text);
    for i := 0 to |parts|
      invariant i > 0 ==> Meta(address, raftAddr, grpcAddr, bootstrapped, appMeta) == Parse(parts[..i])
      invariant i == 0 ==> raftAddr == "" && grpcAddr == "" && !bootstrapped && appMeta == []
    {
      var part := parts[i];
      assert parts[..i + 1] == parts[..i] + [part];
      if i == 0 {
        address := part;
      } else {
        ParseLast(parts[..i], part);
        if "raft=" <= part {
          raftAddr := part[5..];
        } else if "grpc=" <= part {
          grpcAddr := part[5..];
        } else if "app=" <= part {
          var decoded := Decode(part[4..]);
          if decoded.Some? {
            appMeta := decoded.value;
          }
        } else if part == "bootstrapped" {
          bootstrapped := true;
        }
      }
    }
    assert parts[..|parts|] == parts;
    var s := match state
      case Alive => NodeAlive
      case Suspect => NodeSuspect
      case Dead => NodeDead
      case Left => NodeLeft
      case OtherState => NodeAlive;
    info := NodeInfo(name, Meta(address, raftAddr, grpcAddr, bootstrapped, appMeta), s);
    forall d, limit: nat | text == Cut(Print(d), limit) && |Print(d)| <= limit && BarFree(d)
      ensures info.meta == d
    {
      ReceivedExactly(d, limit);
    }
  }
}
