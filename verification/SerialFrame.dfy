/** Reassembly of a reply and its interpretation: `SerialPort::recv`, `transceive` and `F620::readLastResult` of
    ProcessExecutor.cpp. One event is one turn of the receive loop: `select` reports silence, `read` delivers nothing, or
    `read` delivers a chunk of 1 to 256 bytes. */
module SerialFrame {
  import opened ModbusCrc
  import opened CrcDetection
  import CrcPreset

  datatype Event = Silence | Nothing | Chunk(bytes: seq<Byte>)

  predicate Possible(e: Event) {
    e.Chunk? ==> 1 <= |e.bytes| <= 256
  }

  datatype Received = Received(ok: bool, rx: seq<Byte>)

  /** Enough bytes for the function code in the second one. */
  predicate Complete(rx: seq<Byte>) {
    && |rx| >= 3
    && (rx[1] == 0x03 ==> |rx| >= 3 + rx[2] as int + 2)
    && (rx[1] != 0x03 ==> rx[1] == 0x05 && |rx| >= 6)
  }

  /** The loop from `rx` on. A line on which nothing more happens is silent. */
  function Receive(events: seq<Event>, rx: seq<Byte>): Received
    decreases |events|
  {
    if events == [] || events[0].Silence? then Received(rx != [], rx)
    else if events[0].Nothing? then Receive(events[1..], rx)
    else
      var more := rx + events[0].bytes;
      if Complete(more) then Received(true, more) else Receive(events[1..], more)
  }

  /** `SerialPort::recv`. */
  method Recv(events: seq<Event>) returns (ok: bool, rx: seq<Byte>)
    ensures Received(ok, rx) == Receive(events, [])
  {
    rx := [];
    var i := 0;
    while i < |events| && !events[i].Silence?
      invariant 0 <= i <= |events| && Receive(events, []) == Receive(events[i..], rx)
    {
      assert events[i..][1..] == events[i + 1..];
      if events[i].Chunk? {
        rx := rx + events[i].bytes;
        if |rx| >= 3 {
          if rx[1] == 0x03 {
            var expected := 3 + rx[2] as int + 2;
            if |rx| >= expected {
              return true, rx;
            }
          } else if rx[1] == 0x05 {
            if |rx| >= 6 {
              return true, rx;
            }
          }
        }
      }
      i := i + 1;
    }
    return rx != [], rx;
  }

  /** What the device put on the line before it fell silent. */
  function Delivered(events: seq<Event>): seq<Byte>
    decreases |events|
  {
    if events == [] || events[0].Silence? then []
    else (if events[0].Chunk? then events[0].bytes else []) + Delivered(events[1..])
  }

  /** A reply to function 0x03 with as many bytes as it announces, or the six bytes with which the tester acknowledges
      function 0x05. */
  predicate IsReply(frame: seq<Byte>) {
    |frame| >= 3 && ((frame[1] == 0x03 && |frame| == 3 + frame[2] as int + 2) || (frame[1] == 0x05 && |frame| == 6))
  }

  /** Whatever happens on the line, the loop returns the beginning of what was delivered, all of it if it was not
      complete before. */
  lemma {:induction false} ReceivesPrefix(events: seq<Event>, rx: seq<Byte>)
    ensures var r := Receive(events, rx);
            && rx <= r.rx <= rx + Delivered(events)
            && (r.rx == rx + Delivered(events) || Complete(r.rx))
            && (r.ok <==> r.rx != [])
    decreases |events|
  {
    if events != [] && !events[0].Silence? {
      var bytes := if events[0].Chunk? then events[0].bytes else [];
      assert rx + (bytes + Delivered(events[1..])) == (rx + bytes) + Delivered(events[1..]);
      assert rx + [] == rx;
      ReceivesPrefix(events[1..], rx + bytes);
    } else {
      assert rx + [] == rx;
    }
  }

  /** However a complete reply is split into chunks, and whatever follows it, exactly the reply is received. */
  lemma {:induction false} ReplyReassembled(events: seq<Event>, n: nat, rx: seq<Byte>)
    requires n <= |events| && forall i :: 0 <= i < n ==> Possible(events[i]) && !events[i].Silence?
    requires IsReply(rx + Delivered(events[..n])) && rx != rx + Delivered(events[..n])
    ensures Receive(events, rx) == Received(true, rx + Delivered(events[..n]))
    decreases n
  {
    hide IsReply, Complete;
    var first, rest := events[0], events[1..];
    assert events[..n][1..] == rest[..n - 1];
    var bytes := if first.Chunk? then first.bytes else [];
    var frame := rx + Delivered(events[..n]);
    assert frame == (rx + bytes) + Delivered(rest[..n - 1]);
    if first.Nothing? {
      assert rx + [] == rx;
      ReplyReassembled(rest, n - 1, rx);
    } else if rx + bytes != frame {
      PrefixIncomplete(frame, rx + bytes);
      ReplyReassembled(rest, n - 1, rx + bytes);
    } else {
      ReplyComplete(frame);
    }
  }

  lemma ReplyComplete(frame: seq<Byte>)
    requires IsReply(frame)
    ensures Complete(frame)
  {
  }

  lemma PrefixIncomplete(frame: seq<Byte>, p: seq<Byte>)
    requires IsReply(frame) && p <= frame && p != frame
    ensures !Complete(p)
  {
    if |p| >= 3 {
      assert p[1] == frame[1] && p[2] == frame[2];
    }
  }

  /** A reply to any other function is whatever came before the line fell silent. */
  lemma OthersWait(events: seq<Event>)
    requires var all := Delivered(events); |all| >= 2 && all[1] != 0x03 && all[1] != 0x05
    ensures Receive(events, []) == Received(true, Delivered(events))
  {
    hide Receive;
    ReceivesPrefix(events, []);
    assert [] + Delivered(events) == Delivered(events);
  }

  // ---------------------------------------------------------------- the last test result

  /** A reply that reports an alarm or PASS in 24 bytes of data. */
  predicate Conclusive(rx: seq<Byte>) {
    |rx| >= 29 && rx[1] == 0x03 && rx[2] == 0x18 && (rx[9] != 0 || rx[10] != 0 || rx[7] & 0x01 == 0x01)
  }

  lemma WordsRead(rx: seq<Byte>)
    requires |rx| >= 29 && rx[1] == 0x03 && rx[2] == 0x18
    ensures Conclusive(rx) <==> Word(rx[9], rx[10]) != 0 || Word(rx[7], rx[8]) & 0x01 == 0x01
  {
    WordZero(rx[9], rx[10]);
    WordOdd(rx[7], rx[8]);
  }

  lemma WordZero(lo: Byte, hi: Byte)
    ensures Word(lo, hi) == 0 <==> lo == 0 && hi == 0
  {
  }

  lemma WordOdd(lo: Byte, hi: Byte)
    ensures Word(lo, hi) & 0x01 == 0x01 <==> lo & 0x01 == 0x01
  {
  }

  /** `transceive`, with the outcome of `send` given. Replies under eight bytes are not checked. */
  method Transceive(sendOk: bool, events: seq<Event>) returns (ok: bool, rx: seq<Byte>)
    ensures rx == if sendOk then Receive(events, []).rx else []
    ensures ok <==> sendOk && rx != [] && (|rx| >= 8 ==> Accepts(rx))
  {
    rx := [];
    if !sendOk {
      return false, rx;
    }
    ok, rx := Recv(events);
    ReceivesPrefix(events, []);
    if !ok {
      return;
    }
    if |rx| >= 8 {
      ok := CheckCRC(rx);
    }
  }

  /** `F620::readLastResult`; printing is not part of this model. */
  method ReadLastResult(sendOk: bool, events: seq<Event>) returns (ok: bool, request: seq<Byte>)
    ensures request == [0xFF, 0x03, 0x00, 0x11, 0x00, 0x0C, 0x00, 0x14] && Accepts(request)
    ensures var rx := Receive(events, []).rx; ok <==> sendOk && Accepts(rx) && Conclusive(rx)
  {
    var cmd: seq<Byte> := [0xFF, 0x03, 0x00, 0x11, 0x00, 0x0C];
    request := AppendCRC(cmd);
    AppendedIsAccepted(cmd);
    CrcPreset.RequestSum(cmd);
    var got, rx := Transceive(sendOk, events);
    if !got {
      return false, request;
    }
    if |rx| < 29 {
      return false, request;
    }
    if rx[1] != 0x03 {
      return false, request;
    }
    if rx[2] != 0x18 {
      return false, request;
    }
    WordsRead(rx);
    var alarm := Word(rx[9], rx[10]);
    if alarm != 0 {
      return true, request;
    }
    var result := Word(rx[7], rx[8]);
    ok := result & 0x01 == 0x01;
  }

  /** The answer `readLastResult` gives for what happens on the line. */
  predicate Reported(events: seq<Event>) {
    var rx := Receive(events, []).rx; Accepts(rx) && Conclusive(rx)
  }

  /** An intact reply of 29 bytes is reported exactly if it is conclusive, however it arrives. */
  lemma IntactReported(events: seq<Event>, n: nat)
    requires n <= |events| && forall i :: 0 <= i < n ==> Possible(events[i]) && !events[i].Silence?
    requires var frame := Delivered(events[..n]); IsReply(frame) && |frame| == 29 && Accepts(frame)
    ensures Reported(events) <==> Conclusive(Delivered(events[..n]))
  {
    var frame := Delivered(events[..n]);
    assert [] + frame == frame;
    ReplyReassembled(events, n, []);
  }

  /** A reply hit by an error burst of at most 16 bits is never reported, wherever the burst is: even where it changes the
      function code or the announced length, so that the loop stops early or waits for the line to fall silent. */
  lemma CorruptNotReported(frame: seq<Byte>, events: seq<Event>, from: nat)
    requires |frame| == 29 && Accepts(frame)
    requires var bad := Delivered(events);
             && |bad| == 29 && bad != frame
             && forall k :: 0 <= k < 8 * 29 && Bits(frame)[k] != Bits(bad)[k] ==> from <= k < from + 16
    ensures !Reported(events)
  {
    hide Bits, Accepts, Delivered, Receive;
    var bad, rx := Delivered(events), Receive(events, []).rx;
    ReceivesPrefix(events, []);
    assert [] + bad == bad;
    if |rx| >= 29 {
      assert rx == bad;
      BurstDetected(frame, bad, from);
    }
  }

  // ---------------------------------------------------------------- what the tester sends

  function WordBytes(w: bv16): seq<Byte> {
    [Low(w), High(w)]
  }

  function DoubleWordBytes(w: bv32): seq<Byte> {
    [(w & 0xFF) as bv8, ((w >> 8) & 0xFF) as bv8, ((w >> 16) & 0xFF) as bv8, ((w >> 24) & 0xFF) as bv8]
  }

  /** The last result as the tester holds it. */
  datatype TestResult = TestResult(program: bv16, mode: bv16, result: bv16, alarm: bv16,
                                   pressure: bv32, pressureUnit: bv32, leak: bv32, leakUnit: bv32)

  /** Its twelve registers behind address, function and byte count, each low byte first, and the sum over all. */
  function Reply(t: TestResult): (frame: seq<Byte>)
    ensures |frame| == 29
  {
    var body := [0xFF, 0x03, 0x18] + WordBytes(t.program) + WordBytes(t.mode) + WordBytes(t.result) + WordBytes(t.alarm)
                + DoubleWordBytes(t.pressure) + DoubleWordBytes(t.pressureUnit)
                + DoubleWordBytes(t.leak) + DoubleWordBytes(t.leakUnit);
    body + WordBytes(Crc(body))
  }

  lemma ReplyIs(t: TestResult)
    ensures var frame := Reply(t);
            && IsReply(frame) && Accepts(frame) && frame[1] == 0x03 && frame[2] == 0x18
            && Word(frame[7], frame[8]) == t.result && Word(frame[9], frame[10]) == t.alarm
  {
    hide Crc, Accepts, DoubleWordBytes, Low, High, Word;
    var frame := Reply(t);
    var body := frame[..27];
    assert frame == body + [Low(Crc(body)), High(Crc(body))];
    AppendedIsAccepted(body);
    LowHigh(t.result);
    LowHigh(t.alarm);
    assert frame[2] as int == 24;
  }

  /** What the tester holds is what `readLastResult` reports: success exactly for an alarm or a PASS, however the reply is
      split and whatever follows it. */
  lemma ReplyReported(events: seq<Event>, n: nat, t: TestResult)
    requires n <= |events| && forall i :: 0 <= i < n ==> Possible(events[i]) && !events[i].Silence?
    requires Delivered(events[..n]) == Reply(t)
    ensures Reported(events) <==> t.alarm != 0 || t.result & 0x01 == 0x01
  {
    hide Reply, IsReply, Accepts, Conclusive, Delivered, Reported;
    ReplyIs(t);
    IntactReported(events, n);
    WordsRead(Reply(t));
  }
}
