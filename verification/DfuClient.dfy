/** The device update client as it runs: one record of fields, a byte ring, and the state
    functions over them, each proved to do what the model says. */
module DfuClient {
  import opened Bytes
  import opened ByteRing
  import opened DfuModel
  import opened DfuControl
  import Crc32

  class Dfu {
    // The application's callbacks: what the objects are, what was sent, what was reported.
    const src: Source
    var sent: seq<Packet>
    var events: seq<Event>
    var calls: nat

    const ring: Ring
    var sumCnt: nat
    var state: State
    var curType: Kind
    var prn: nat
    var prnCnt: nat
    var pkgNum: nat
    var sendLen: nat
    var cmd: Object
    var img: Object

    ghost predicate Valid()
      reads this, ring
    {
      ring.Valid() && ring.buf.Length == DFU_FIFO_SIZE
    }

    ghost function Model(): Client
      requires Valid()
      reads this, ring, ring.buf
    {
      Client(state, curType, prn, prnCnt, pkgNum, sendLen, cmd, img, ring.Contents(), sumCnt, calls, sent, events)
    }

    constructor (src: Source)
      ensures Valid() && this.src == src && fresh(ring) && fresh(ring.buf)
      ensures Model() == Client(Idle, Command, 0, 0, 0, 0, Object(0, 0, 0), Object(0, 0, 0), [], 0, 0, [], [])
    {
      this.src := src;
      ring := new Ring(DFU_FIFO_SIZE);
      sent, events, calls, sumCnt := [], [], 0, 0;
      state, curType, prn, prnCnt, pkgNum, sendLen := Idle, Command, 0, 0, 0, 0;
      cmd, img := Object(0, 0, 0), Object(0, 0, 0);
    }

    method Select()
      requires Valid()
      modifies this, ring
      ensures Valid() && Model() == StSelect(old(Model()))
    {
      hide Window, LittleEndian32, ToByte;
      state := Sel;
      prnCnt := 0;
      ring.Clear();
      sumCnt := 0;
      if pkgNum == 0 { return; }
      sent := sent + [Ctrl([SELECT, curType.Code()])];
      state := PdSel;
      pkgNum := pkgNum - 1;
    }

    method SetPrnState()
      requires Valid()
      modifies this
      ensures Valid() && Model() == StSetPrn(old(Model()))
    {
      hide Window, LittleEndian32, ToByte;
      state := SetPrn;
      if pkgNum == 0 { return; }
      sent := sent + [Ctrl([SET_PRN, ToByte(prn % 256)])];
      state := PdSetPrn;
      pkgNum := pkgNum - 1;
    }

    method CreateState()
      requires Valid()
      modifies this
      ensures Valid() && Model() == StCreate(src, old(Model()))
    {
      hide Window, LittleEndian32, ToByte;
      state := Create;
      if pkgNum == 0 { return; }
      var length := |src.Bytes(curType)|;
      if curType == Command {
        cmd := Object(length, 0, 0);
      } else {
        img := Object(length, 0, 0);
      }
      sent := sent + [Ctrl([CREATE, curType.Code()] + LittleEndian32(length))];
      state := PdCreate;
      pkgNum := pkgNum - 1;
    }

    method GetCrcState()
      requires Valid()
      modifies this
      ensures Valid() && Model() == StGetCrc(old(Model()))
    {
      hide Window, LittleEndian32, ToByte;
      state := GetCrc;
      if pkgNum == 0 { return; }
      sent := sent + [Ctrl([CAL_CHECKSUM])];
      state := PdGetCrc;
      pkgNum := pkgNum - 1;
    }

    method ExecuteState()
      requires Valid()
      modifies this
      ensures Valid() && Model() == StExecute(old(Model()))
    {
      hide Window, LittleEndian32, ToByte;
      state := Execute;
      if pkgNum == 0 { return; }
      sent := sent + [Ctrl([EXECUTE])];
      state := PdExecute;
      pkgNum := pkgNum - 1;
    }

    /** The data callback: up to max bytes of an object from byte offset on. */
    method GetData(kind: Kind, offset: nat, max: nat) returns (buf: seq<byte>)
      requires offset + max <= |src.Bytes(kind)|
      modifies this`calls
      ensures calls == old(calls) + 1
      ensures var n := Given(src, old(calls), max); buf == src.Bytes(kind)[offset..offset + n]
    {
      var n := Given(src, calls, max);
      buf := src.Bytes(kind)[offset..offset + n];
      calls := calls + 1;
    }

    /** The sending loop. It ends: every turn that goes on has fetched or sent something. */
    method WriteState()
      requires Valid() && Goes(src, Model())
      modifies this, ring, ring.buf
      ensures Valid() && Model() == StWrite(src, old(Model()))
    {
      hide Queued, Turn;
      state := Write;
      if pkgNum == 0 { return; }
      ghost var m := Model();
      while pkgNum > 0
        invariant Valid() && Goes(src, Model()) && Loop(src, m) == Loop(src, Model())
        decreases Work(Model())
      {
        TurnWorks(src, Model());
        WorkNatural(src, Model());
        var end := LoopBody();
        if end == Starve { return; }
        if end == AskNow {
          GetCrcState();
          return;
        }
      }
    }

    /** One turn: fetch if the queue is short of a packet, then send a packet if there is one
        to send, and see whether it is time to ask for the CRC. */
    method LoopBody() returns (end: Ending)
      requires Valid() && Supplied(src, Model()) && Fillable(src, Model()) && pkgNum > 0
      modifies this, ring, ring.buf
      ensures Valid()
      ensures Turn(src, old(Model())) == match end
                                          case Starve => Starved(Model())
                                          case GoOn => Again(Model())
                                          case AskNow => Ask(Model())
    {
      hide Queued, Window, Fill, Crc32.Crc;
      var starved, bufDataRemain := Fetch();
      if starved { return Starve; }
      var n := if ring.Length() < sendLen then ring.Length() else sendLen;
      if (bufDataRemain == 0 && n > 0) || n == sendLen {
        SendPacket(n);
        if (bufDataRemain == 0 && ring.Length() == 0) || prnCnt == prn {
          prnCnt := 0;
          return AskNow;
        }
      }
      return GoOn;
    }

    /** Calls the data callback if the queue holds less than a packet and data is left. */
    method Fetch() returns (starved: bool, bufDataRemain: nat)
      requires Valid() && Supplied(src, Model()) && Fillable(src, Model())
      modifies this`sumCnt, this`calls, ring, ring.buf
      ensures Valid() && Model() == Fill(src, old(Model()))
      ensures starved <==> Wants(old(Model())) && GivenNow(src, old(Model())) == 0
      ensures bufDataRemain == Remaining(Model())
    {
      hide Window, Queued, Crc32.Crc;
      FillKeepsSupply(src, Model());
      if Wants(Model()) {
        FetchFits(src, Model());
      }
      bufDataRemain := (if curType == Command then cmd.size - sumCnt else img.size - sumCnt) % WORD;
      starved := false;
      if bufDataRemain != 0 && ring.Length() < sendLen {
        var maxLen := if bufDataRemain < BUF_SIZE then bufDataRemain else BUF_SIZE;
        var buf := GetData(curType, sumCnt, maxLen);
        bufDataRemain := bufDataRemain - |buf|;
        assert ring.Contents() + [] == ring.Contents();
        if |buf| == 0 {
          starved := true;
          return;
        }
        ring.Push(buf);
        sumCnt := sumCnt + |buf|;
      }
    }

    /** Pops one packet off the queue, sends it, and counts it in. */
    method SendPacket(n: nat)
      requires Valid() && pkgNum > 0 && n == NextLength(Model())
      modifies this, ring
      ensures Valid() && Model() == SendData(old(Model()))
    {
      hide Window, Crc32.Crc;
      var buf := ring.Pop(n);
      sent := sent + [Data(buf)];
      var o := if curType == Command then cmd else img;
      var crc := Crc32.Compute(buf, o.crc);
      o := Object(o.size, (o.offset + n) % WORD, crc);
      if curType == Command {
        cmd := o;
      } else {
        img := o;
      }
      events := events + [Progress(o.offset, o.size)];
      pkgNum := pkgNum - 1;
      prnCnt := (prnCnt + 1) % 256;
    }

    /** The CRC of the first offset bytes of an object, fetched anew. */
    method GetCrcByOffset(kind: Kind, offset: nat) returns (c: bv32)
      requires offset <= |src.Bytes(kind)|
      modifies this`calls
      ensures (c, calls) == CrcByOffset(src, kind, offset, 0, 0, old(calls))
    {
      hide Crc32.Crc;
      c := 0;
      var o := 0;
      while offset > o
        invariant o <= offset
        invariant CrcByOffset(src, kind, offset, o, c, calls) == CrcByOffset(src, kind, offset, 0, 0, old(calls))
      {
        var maxLen := if offset - o < BUF_SIZE then offset - o else BUF_SIZE;
        var buf := GetData(kind, o, maxLen);
        if |buf| == 0 {
          c := 0;
          return;
        }
        c := Crc32.Compute(buf, c);
        o := o + |buf|;
      }
    }

    method Finish(status: byte)
      requires Valid()
      modifies this`state, this`events
      ensures Valid() && Model() == old(Model()).Finish(status)
    {
      state := Idle;
      events := events + [End(status)];
    }

    /** A CRC answer: execute when all is sent, write on when more is to come, else give up. */
    method CrcAnswer(ghost d: seq<byte>, offset: nat, crc: nat)
      requires Valid() && Deals(src, Model(), d)
      requires Response(d) && d[2] == DFU_SUCCESS && d[1] == CAL_CHECKSUM && state == PdGetCrc
      requires offset == Decode32(d[3..7]) && crc == Decode32(d[7..11])
      modifies this, ring, ring.buf
      ensures Valid() && Model() == Checked(src, old(Model()), d)
    {
      hide Queued, Loop, Window, StExecute, StWrite, Decode32;
      ghost var c := Model();
      var o := if curType == Command then cmd else img;
      assert o == c.Cur();
      if offset == o.offset && crc == o.crc as int {
        if offset == o.size {
          ExecuteState();
        } else {
          WriteState();
        }
      } else {
        Finish(DFU_CRC_NOT_MATCH);
      }
    }

    /** The answer to SELECT: go on from what the peer has if it matches, else set up a new
        transfer. */
    method SelectAnswered(ghost d: seq<byte>, size: nat, offset: nat, crc: nat)
      requires Valid() && Deals(src, Model(), d) && SelectAnswer(Model(), d)
      requires size == Decode32(d[3..7]) && offset == Decode32(d[7..11]) && crc == Decode32(d[11..15])
      modifies this, ring, ring.buf
      ensures Valid() && Model() == Selected(src, old(Model()), d)
    {
      hide Queued, Loop, Window, StSetPrn, StWrite, Decode32, CrcByOffset;
      if size > 0 && offset > 0 && size == |src.Bytes(curType)| {
        var c := GetCrcByOffset(curType, offset);
        if c as int == crc {
          ResumeGoes(src, old(Model()), d, calls);
          WriteState();
          return;
        }
      }
      SetPrnState();
    }

    /** A notification from the peer. */
    method Recv(data: seq<byte>)
      requires Valid() && Deals(src, Model(), data)
      modifies this, ring, ring.buf
      ensures Valid() && Model() == DfuControl.Recv(src, old(Model()), data)
    {
      hide Queued, Window, Loop, Match, Decode32, StSelect, StSetPrn, StCreate, StExecute, CheckCrc, Checked, Selected;
      if |data| >= 3 && data[0] == RESPONSE {
        var opcode := data[1];
        if data[2] != DFU_SUCCESS {
          Finish(data[2]);
        } else if opcode == CREATE && state == PdCreate {
          WriteState();
        } else if opcode == SET_PRN && state == PdSetPrn {
          CreateState();
        } else if opcode == CAL_CHECKSUM && state == PdGetCrc {
          CrcAnswer(data, Decode32(data[3..7]), Decode32(data[7..11]));
        } else if opcode == EXECUTE && state == PdExecute {
          if curType == Command {
            curType := Image;
            Select();
          } else {
            Finish(DFU_SUCCESS);
          }
        } else if opcode == SELECT && state == PdSel && |data| >= 15 {
          SelectAnswered(data, Decode32(data[3..7]), Decode32(data[7..11]), Decode32(data[11..15]));
        }
      }
    }

    /** A grant of credits. */
    method CanSend(n: nat)
      requires Valid() && Steady(src, Model()) && n < 128 && !Jams(Model(), n)
      modifies this, ring, ring.buf
      ensures Valid() && Model() == DfuControl.CanSend(src, old(Model()), n)
    {
      hide Queued, Window, Loop, StSelect, StSetPrn, StCreate, StExecute, StGetCrc;
      pkgNum := n;
      if state == Write {
        WriteState();
      } else if state == Sel {
        Select();
      } else if state == SetPrn {
        SetPrnState();
      } else if state == Create {
        CreateState();
      } else if state == GetCrc {
        GetCrcState();
      } else if state == Execute {
        ExecuteState();
      }
    }

    method Start(mtu: nat, pkgMaxNum: nat, prn: nat)
      requires Valid() && mtu >= 23
      modifies this, ring
      ensures Valid() && Model() == DfuControl.Start(old(Model()), mtu, pkgMaxNum, prn)
    {
      hide Window;
      if state != Idle {
        return;
      }
      curType := Command;
      this.prn := prn;
      pkgNum := pkgMaxNum;
      sendLen := if mtu - 3 < MAX_DFU_SEND_SIZE then mtu - 3 else MAX_DFU_SEND_SIZE;
      Select();
    }
  }

  datatype Ending = Starve | GoOn | AskNow
}
