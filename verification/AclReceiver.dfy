/** The reassembly buffer as it runs. */
module AclReceiver {
  import opened Bytes
  import opened AclModel

  class Receiver {
    const buffer: array<byte>
    var dataRemain: nat
    var dataLen: nat
    var delivered: seq<seq<byte>>

    ghost predicate Valid()
      reads this, buffer
    {
      buffer.Length == ATT_MAX_MTU + 9 && dataRemain < 0x1_0000 && 5 + dataLen <= buffer.Length
    }

    ghost function Model(): Rx
      requires Valid()
      reads this, buffer
    {
      Rx(dataRemain, buffer[..5 + dataLen], delivered)
    }

    constructor ()
      ensures Valid() && dataRemain == 0 && delivered == [] && fresh(buffer)
    {
      buffer := new byte[ATT_MAX_MTU + 9](i => if i == 0 then 2 else 0);
      dataRemain, dataLen, delivered := 0, 0, [];
    }

    /** Takes one ACL packet and hands on the L2CAP packet it completes, if any. */
    method HandleAcl(data: seq<byte>)
      requires Valid() && Acl(data) && Room(Model(), data)
      modifies this, buffer
      ensures Valid() && Model() == Receive(old(Model()), data)
    {
      hide Decode16, LittleEndian16, Boundary, ReceiveFirst, ReceiveNext;
      if Boundary(data[2]) == FIRST {
        HandleFirst(data);
      } else {
        HandleNext(data);
      }
    }

    method HandleFirst(data: seq<byte>)
      requires Valid() && |data| >= 9
      modifies this, buffer
      ensures Valid() && Model() == ReceiveFirst(old(Model()), data)
    {
      hide Decode16, LittleEndian16;
      var length: nat := |data| - 5;
      if length > ATT_MAX_MTU + 4 {
        return;
      }
      dataRemain := Decode16(data[5..7]);
      dataLen := 4;
      StoreFirst(buffer, data, dataRemain);
      dataRemain := (dataRemain - (length - 4)) % 0x1_0000;
      dataLen := dataLen + (length - 4);
      Complete();
    }

    method HandleNext(data: seq<byte>)
      requires Valid() && |data| >= 5
      requires dataRemain >= |data| - 5 ==> dataLen + |data| <= buffer.Length
      modifies this, buffer
      ensures Valid() && Model() == ReceiveNext(old(Model()), data)
    {
      var length: nat := |data| - 5;
      if dataRemain < length {
        dataRemain := 0;
        return;
      }
      Copy(buffer, 5 + dataLen, data[5..]);
      dataRemain := dataRemain - length;
      dataLen := dataLen + length;
      Complete();
    }

    /** Hands the packet on if nothing remains to come. */
    method Complete()
      requires Valid()
      modifies this`delivered
      ensures Valid() && Model() == Finish(old(Model()))
    {
      if dataRemain > 0 {
        return;
      }
      delivered := delivered + [buffer[..dataLen + 5]];
    }
  }

  /** The library's memcpy. */
  method Copy(a: array<byte>, at: nat, s: seq<byte>)
    requires at + |s| <= a.Length
    modifies a
    ensures a[..at + |s|] == old(a[..at]) + s
    ensures a[at + |s|..] == old(a[at + |s|..])
  {
    forall i | 0 <= i < |s| {
      a[at + i] := s[i];
    }
  }

  /** Header, rewritten ACL length, and what the first fragment carries. */
  method StoreFirst(buffer: array<byte>, data: seq<byte>, total: nat)
    requires 9 <= |data| <= buffer.Length
    modifies buffer
    ensures buffer[..|data|] == data[..3] + LittleEndian16(total + 4) + data[5..]
  {
    hide LittleEndian16;
    var acl := LittleEndian16(total + 4);
    Copy(buffer, 0, data[..9]);
    buffer[3], buffer[4] := acl[0], acl[1];
    assert buffer[..9] == data[..3] + acl + data[5..9];
    Copy(buffer, 9, data[9..]);
    assert data[5..] == data[5..9] + data[9..];
  }
}
