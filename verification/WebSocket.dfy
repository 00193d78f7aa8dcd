/** The WebSocket frame codec of the app-server smoke test, after sections 5.2 and 5.3 of RFC 6455. */
module WebSocket {
  import opened Options
  import opened Bytes
  import opened Sequences

  datatype Message = Message(opcode: nat, payload: seq<byte>)

  const MAX_LENGTH: nat := 0x1_0000_0000_0000_0000

  // ---- Sending -----------------------------------------------------------------------------------

  /** What `_send_websocket_text` writes; `struct.pack` rejects a length of 2^64 or more. */
  function EncodeText(data: seq<byte>): Option<seq<byte>> {
    if |data| < 126 then Some([0x81, |data|] + data)
    else if |data| < 65_536 then Some([0x81, 126] + BigEndian(|data|, 2) + data)
    else if |data| < MAX_LENGTH then Some([0x81, 127] + BigEndian(|data|, 8) + data)
    else None
  }

  // ---- Receiving ---------------------------------------------------------------------------------

  function Unmask(data: seq<byte>, mask: seq<byte>): (r: seq<byte>)
    requires |mask| == 4
    ensures |r| == |data|
  {
    seq(|data|, i requires 0 <= i < |data| => Xor(data[i], mask[i % 4]))
  }

  /** A connection with the bytes still to arrive. `Recv` may hand over any non-empty part of what
      was asked for, so a proof about it covers every split of the stream into chunks. */
  class Connection {
    var incoming: seq<byte>

    constructor (incoming: seq<byte>)
      ensures this.incoming == incoming
    {
      this.incoming := incoming;
    }

    method Recv(most: nat) returns (chunk: seq<byte>)
      requires most > 0
      modifies this
      ensures old(incoming) == chunk + incoming
      ensures |chunk| <= most && (chunk == [] <==> old(incoming) == [])
    {
      if incoming == [] {
        return [];
      }
      var k :| 1 <= k <= most && k <= |incoming|;
      chunk, incoming := incoming[..k], incoming[k..];
    }
  }

  method RecvExact(c: Connection, length: nat) returns (r: Option<seq<byte>>)
    modifies c
    ensures r.Some? <==> |old(c.incoming)| >= length
    ensures r.Some? ==> r.value == old(c.incoming)[..length] && c.incoming == old(c.incoming)[length..]
    ensures r.None? ==> c.incoming == []
  {
    var data: seq<byte> := [];
    while |data| < length
      invariant |data| <= length && old(c.incoming) == data + c.incoming
      decreases length - |data|
    {
      var chunk := c.Recv(length - |data|);
      if chunk == [] {
        assert old(c.incoming) == data;
        return None;
      }
      data := data + chunk;
    }
    assert old(c.incoming)[..length] == data && old(c.incoming)[length..] == c.incoming;
    return Some(data);
  }

  /** The length field: how many extended bytes follow `second`, and the length they announce. */
  function ExtendedWidth(second: byte): nat {
    if second % 128 == 126 then 2 else if second % 128 == 127 then 8 else 0
  }

  function MaskWidth(second: byte): nat {
    if second >= 128 then 4 else 0
  }

  function Announced(second: byte, extended: seq<byte>): nat {
    if ExtendedWidth(second) == 0 then second % 128 else FromBigEndian(extended)
  }

  function Opened(second: byte, key: seq<byte>, data: seq<byte>): seq<byte>
    requires |key| == MaskWidth(second)
  {
    if second >= 128 then Unmask(data, key) else data
  }

  /** The meaning of a stream: its first frame and what follows it, or nothing if it ends early. */
  function Decode(s: seq<byte>): Option<(Message, seq<byte>)> {
    if |s| < 2 then None else DecodeLength(s[0], s[1], s[2..])
  }

  function DecodeLength(first: byte, second: byte, s: seq<byte>): Option<(Message, seq<byte>)> {
    var w := ExtendedWidth(second);
    if |s| < w then None else DecodePayload(first, second, Announced(second, s[..w]), s[w..])
  }

  function DecodePayload(first: byte, second: byte, length: nat, s: seq<byte>): Option<(Message, seq<byte>)> {
    var n := MaskWidth(second);
    if |s| < n + length then None
    else Some((Message(first % 16, Opened(second, s[..n], s[n..n + length])), s[n + length..]))
  }

  /** The payload length, read from the second byte and any extended length bytes. */
  method RecvLength(c: Connection, second: byte) returns (r: Option<nat>)
    modifies c
    ensures r.Some? <==> |old(c.incoming)| >= ExtendedWidth(second)
    ensures r.Some? ==> r.value == Announced(second, old(c.incoming)[..ExtendedWidth(second)])
    ensures r.Some? ==> c.incoming == old(c.incoming)[ExtendedWidth(second)..]
    ensures r.None? ==> c.incoming == []
  {
    var length: nat := second % 128;
    if length == 126 || length == 127 {
      var extended := RecvExact(c, if length == 126 then 2 else 8);
      if extended.None? {
        return None;
      }
      return Some(FromBigEndian(extended.value));
    }
    return Some(length);
  }

  /** The masking key, if the mask bit is set, and the payload, unmasked. */
  method RecvPayload(c: Connection, second: byte, length: nat) returns (r: Option<seq<byte>>)
    modifies c
    ensures var n := MaskWidth(second);
            && (r.Some? <==> |old(c.incoming)| >= n + length)
            && (r.Some? ==> r.value == Opened(second, old(c.incoming)[..n], old(c.incoming)[n..n + length]))
            && (r.Some? ==> c.incoming == old(c.incoming)[n + length..])
    ensures r.None? ==> c.incoming == []
  {
    var mask: seq<byte> := [];
    if second >= 128 {
      var received := RecvExact(c, 4);
      if received.None? {
        return None;
      }
      mask := received.value;
    }
    ghost var s, n := old(c.incoming), MaskWidth(second);
    assert c.incoming == s[n..] && mask == s[..n];
    var payload: seq<byte> := [];
    if length != 0 {
      var received := RecvExact(c, length);
      if received.None? {
        return None;
      }
      payload := received.value;
    }
    assert payload == s[n..n + length] && c.incoming == s[n + length..];
    return Some(Opened(second, mask, payload));
  }

  /** `_recv_websocket_frame`, whatever chunks the transport hands over. */
  method RecvWebsocketFrame(c: Connection) returns (r: Option<Message>)
    modifies c
    ensures r.Some? <==> Decode(old(c.incoming)).Some?
    ensures r.Some? ==> r.value == Decode(old(c.incoming)).value.0 && c.incoming == Decode(old(c.incoming)).value.1
    ensures r.None? ==> c.incoming == []
  {
    var header := RecvExact(c, 2);
    if header.None? {
      return None;
    }
    var (first, second) := (header.value[0], header.value[1]);
    var length := RecvLength(c, second);
    if length.None? {
      return None;
    }
    var payload := RecvPayload(c, second, length.value);
    if payload.None? {
      return None;
    }
    return Some(Message(first % 16, payload.value));
  }

  // ---- Frames as the standard lays them out -------------------------------------------------------

  datatype LengthForm = Seven | Sixteen | SixtyFour

  predicate FormAdmits(form: LengthForm, length: nat) {
    match form
    case Seven => length < 126
    case Sixteen => length < 65_536
    case SixtyFour => length < MAX_LENGTH
  }

  /** A frame: flag-and-opcode byte, mask bit, payload length, optional masking key, payload data
      (section 5.2), the payload masked with the key when there is one (section 5.3). */
  function Layout(first: byte, form: LengthForm, mask: Option<seq<byte>>, payload: seq<byte>): seq<byte>
    requires FormAdmits(form, |payload|) && (mask.Some? ==> |mask.value| == 4)
  {
    [first, SecondByte(form, mask.Some?, |payload|)]
    + BigEndian(|payload|, FormWidth(form))
    + (if mask.Some? then mask.value + Unmask(payload, mask.value) else payload)
  }

  function FormWidth(form: LengthForm): nat {
    match form case Seven => 0 case Sixteen => 2 case SixtyFour => 8
  }

  function SecondByte(form: LengthForm, masked: bool, length: nat): (b: byte)
    requires FormAdmits(form, length)
    ensures ExtendedWidth(b) == FormWidth(form) && MaskWidth(b) == if masked then 4 else 0
    ensures form.Seven? ==> b % 128 == length
  {
    (if masked then 128 else 0) + match form case Seven => length case Sixteen => 126 case SixtyFour => 127
  }

  lemma {:induction false} UnmaskTwice(data: seq<byte>, mask: seq<byte>)
    requires |mask| == 4
    ensures Unmask(Unmask(data, mask), mask) == data
  {
    forall i | 0 <= i < |data| ensures Unmask(Unmask(data, mask), mask)[i] == data[i] {
      XorInvolution(data[i], mask[i % 4]);
    }
  }

  lemma {:induction false} DecodesParts(first: byte, second: byte, extended: seq<byte>, key: seq<byte>, data: seq<byte>,
      rest: seq<byte>)
    requires |extended| == ExtendedWidth(second) && |key| == MaskWidth(second) && |data| == Announced(second, extended)
    ensures Decode([first, second] + extended + (key + data) + rest)
            == Some((Message(first % 16, Opened(second, key, data)), rest))
  {
    var s := [first, second] + extended + (key + data) + rest;
    var afterHeader := extended + (key + data) + rest;
    var afterLength := key + data + rest;
    assert s[2..] == afterHeader;
    assert afterHeader[..|extended|] == extended && afterHeader[|extended|..] == afterLength;
    assert afterLength[..|key|] == key && afterLength[|key|..|key| + |data|] == data;
    assert afterLength[|key| + |data|..] == rest;
  }

  lemma {:induction false} AnnouncesLength(form: LengthForm, masked: bool, length: nat)
    requires FormAdmits(form, length)
    ensures Announced(SecondByte(form, masked, length), BigEndian(length, FormWidth(form))) == length
  {
    Pow256Values();
    if !form.Seven? {
      BigEndianRoundTrip(length, FormWidth(form));
    }
  }

  /** Decoding any frame the standard allows, masked or not, with whatever follows it, gives back
      its opcode and payload and stops exactly at its end. */
  lemma {:induction false} DecodesLayout(first: byte, form: LengthForm, mask: Option<seq<byte>>, payload: seq<byte>,
      rest: seq<byte>)
    requires FormAdmits(form, |payload|) && (mask.Some? ==> |mask.value| == 4)
    ensures Decode(Layout(first, form, mask, payload) + rest) == Some((Message(first % 16, payload), rest))
  {
    var second := SecondByte(form, mask.Some?, |payload|);
    var key := if mask.Some? then mask.value else [];
    var data := if mask.Some? then Unmask(payload, mask.value) else payload;
    AnnouncesLength(form, mask.Some?, |payload|);
    DecodesParts(first, second, BigEndian(|payload|, FormWidth(form)), key, data, rest);
    assert key + data == if mask.Some? then mask.value + data else payload;
    if mask.Some? {
      UnmaskTwice(payload, mask.value);
    }
  }

  lemma {:induction false} DecodedParts(s: seq<byte>) returns (extended: seq<byte>, key: seq<byte>, data: seq<byte>)
    requires Decode(s).Some?
    ensures var (m, rest) := Decode(s).value;
            && |extended| == ExtendedWidth(s[1]) && |key| == MaskWidth(s[1]) && |data| == Announced(s[1], extended)
            && m == Message(s[0] % 16, Opened(s[1], key, data))
            && s == [s[0], s[1]] + extended + (key + data) + rest
  {
    var second, afterHeader := s[1], s[2..];
    var w, n := ExtendedWidth(second), MaskWidth(second);
    extended := afterHeader[..w];
    var afterLength := afterHeader[w..];
    var length := Announced(second, extended);
    key, data := afterLength[..n], afterLength[n..n + length];
    var rest := afterLength[n + length..];
    Splits(afterLength, n, n + length);
    Splits(afterHeader, w, w);
    Splits(s, 1, 2);
    Regroup([s[0], second], extended, key + data, rest);
  }

  /** Conversely, whatever decodes is such a frame followed by the reported rest. */
  lemma {:induction false} OnlyLayoutsDecode(s: seq<byte>)
      returns (first: byte, form: LengthForm, mask: Option<seq<byte>>)
    requires Decode(s).Some?
    ensures var (m, rest) := Decode(s).value;
            && FormAdmits(form, |m.payload|) && (mask.Some? ==> |mask.value| == 4)
            && first % 16 == m.opcode
            && s == Layout(first, form, mask, m.payload) + rest
  {
    var extended, key, data := DecodedParts(s);
    first := s[0];
    form := if |extended| == 0 then Seven else if |extended| == 2 then Sixteen else SixtyFour;
    mask := if s[1] >= 128 then Some(key) else None;
    LengthFieldIsForced(s[1], extended, form);
    LayoutOfParts(first, s[1], extended, key, data, form, mask);
  }

  lemma {:induction false} LayoutOfParts(first: byte, second: byte, extended: seq<byte>, key: seq<byte>,
      data: seq<byte>,
                                         form: LengthForm, mask: Option<seq<byte>>)
    requires |key| == MaskWidth(second) && mask == (if second >= 128 then Some(key) else None)
    requires FormAdmits(form, |data|)
    requires SecondByte(form, second >= 128, |data|) == second && BigEndian(|data|, FormWidth(form)) == extended
    ensures Layout(first, form, mask, Opened(second, key, data)) == [first, second] + extended + (key + data)
  {
    if mask.Some? {
      UnmaskTwice(data, key);
    } else {
      assert key + data == data;
    }
  }

  lemma {:induction false} LengthFieldIsForced(second: byte, extended: seq<byte>, form: LengthForm)
    requires |extended| == ExtendedWidth(second) == FormWidth(form)
    ensures FormAdmits(form, Announced(second, extended))
    ensures SecondByte(form, second >= 128, Announced(second, extended)) == second
    ensures BigEndian(Announced(second, extended), FormWidth(form)) == extended
  {
    Pow256Values();
    FromBigEndianRoundTrip(extended);
  }

  // ---- Round trips -----------------------------------------------------------------------------------

  /** What the sender wrote decodes to a text message with the same payload, consuming that frame. */
  lemma {:induction false} TextRoundTrip(data: seq<byte>, rest: seq<byte>)
    requires EncodeText(data).Some?
    ensures Decode(EncodeText(data).value + rest) == Some((Message(1, data), rest))
  {
    var form := if |data| < 126 then Seven else if |data| < 65_536 then Sixteen else SixtyFour;
    assert EncodeText(data).value == Layout(0x81, form, None, data);
    DecodesLayout(0x81, form, None, data, rest);
  }

  lemma {:induction false} MoreBytesChangeNothing(s: seq<byte>, more: seq<byte>)
    requires Decode(s).Some?
    ensures Decode(s + more) == Some((Decode(s).value.0, Decode(s).value.1 + more))
  {
    hide Decode, Layout;
    var (m, rest) := Decode(s).value;
    var first, form, mask := OnlyLayoutsDecode(s);
    DecodesLayout(first, form, mask, m.payload, rest + more);
    var frame := Layout(first, form, mask, m.payload);
    assert s + more == frame + (rest + more);
  }

  /** Frames are self-delimiting: a stream cut inside a sent frame never yields a message. */
  lemma {:induction false} CutFrameYieldsNothing(data: seq<byte>, cut: nat)
    requires EncodeText(data).Some? && cut < |EncodeText(data).value|
    ensures Decode(EncodeText(data).value[..cut]).None?
  {
    var whole := EncodeText(data).value;
    TextRoundTrip(data, []);
    assert whole + [] == whole && whole == whole[..cut] + whole[cut..];
    if Decode(whole[..cut]).Some? {
      MoreBytesChangeNothing(whole[..cut], whole[cut..]);
    }
  }

  ghost function Sent(messages: seq<seq<byte>>): (s: seq<byte>)
    requires forall i :: 0 <= i < |messages| ==> EncodeText(messages[i]).Some?
    ensures s == [] <==> messages == []
  {
    if messages == [] then [] else EncodeText(messages[0]).value + Sent(messages[1..])
  }

  /** Reading frames until the stream is used up. */
  method ReceiveAll(c: Connection, ghost messages: seq<seq<byte>>) returns (received: seq<Message>)
    requires forall i :: 0 <= i < |messages| ==> EncodeText(messages[i]).Some?
    requires c.incoming == Sent(messages)
    modifies c
    ensures |received| == |messages|
    ensures forall i :: 0 <= i < |messages| ==> received[i] == Message(1, messages[i])
    ensures c.incoming == []
  {
    received := [];
    ghost var left := messages;
    while c.incoming != []
      invariant |received| + |left| == |messages| && left == messages[|received|..]
      invariant forall i :: 0 <= i < |left| ==> EncodeText(left[i]).Some?
      invariant c.incoming == Sent(left)
      invariant forall i :: 0 <= i < |received| ==> received[i] == Message(1, messages[i])
      decreases |left|
    {
      TextRoundTrip(left[0], Sent(left[1..]));
      var m := RecvWebsocketFrame(c);
      received := received + [m.value];
      left := left[1..];
    }
  }
}
