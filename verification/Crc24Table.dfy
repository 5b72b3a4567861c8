/** The table-driven computation as it runs; the table is filled by the first call. */
module Crc24Table {
  import opened Bytes
  import opened Crc24
  import opened Crc24Step
  import opened WordBits

  function Narrow(r: bv32): byte {
    LowByte(r) as bv8
  }

  lemma NarrowWide(r: bv32)
    ensures LowByte(r) < 0x100 && Wide(Narrow(r)) == LowByte(r)
  {
  }

  lemma SameByte(a: byte, b: byte)
    requires a as int == b as int
    ensures a == b
  {
  }

  lemma ToByteBack(b: byte)
    ensures ToByte(b as int) == b
  {
    SameByte(ToByte(b as int), b);
  }

  ghost predicate Filled(t: seq<bv32>, n: nat) {
    n <= |t| == 256 && forall k: nat :: k < n ==> t[k] == Entry(Wide(ToByte(k)))
  }

  lemma FilledAt(t: seq<bv32>, r: bv32)
    requires Filled(t, 256)
    ensures t[Narrow(r) as int] == Entry(LowByte(r))
  {
    hide Entry, LowByte, Wide;
    NarrowWide(r);
    ToByteBack(Narrow(r));
  }

  class Table {
    var initFlag: bool
    const table: array<bv32>

    ghost predicate Valid()
      reads this, table
    {
      table.Length == 256 && (initFlag ==> Filled(table[..], 256))
    }

    constructor ()
      ensures Valid() && fresh(table)
    {
      initFlag := false;
      table := new bv32[256](i => 0);
    }

    method Fill()
      requires Valid()
      modifies this, table
      ensures Valid() && initFlag
    {
      hide Entry, Wide, Mix, Shr1, LowBit, ToByte;
      for i := 0 to 256
        invariant table.Length == 256 && Filled(table[..], i)
      {
        var crc: bv32, c := 0, Wide(ToByte(i));
        ghost var whole := Steps(crc, c, 8);
        assert whole == Entry(c) by { EntryIs(c); }
        for j := 0 to 8
          invariant Steps(crc, c, 8 - j) == whole && table.Length == 256 && Filled(table[..], i)
        {
          if LowBit(crc) != LowBit(c) {
            crc := Mix(Shr1(crc), 0xDA6000);
          } else {
            crc := Shr1(crc);
          }
          c := Shr1(c);
        }
        ghost var was := table[..];
        table[i] := crc;
        assert table[..] == was[i := crc];
      }
      initFlag := true;
    }

    /** The CRC of buf from the given initial value: the register of the specification,
        preset, clocked by every bit of buf, and read upside down into 24 bits. */
    method Crc24(init: bv32, buf: seq<byte>) returns (crc: bv32)
      requires Valid()
      modifies this, table
      ensures Valid() && crc < 0x100_0000 && Positions(crc) == Lfsr(Preset(init), DataBits(buf))
    {
      hide Mix, Shr8, LowByte, Wide, Entry, Positions, Lfsr, Preset, DataBits, TakeIn, Shr1, Filled, Loaded, Narrow;
      if !initFlag {
        Fill();
      }
      crc := Reflect(init);
      for i := 0 to |buf|
        invariant Valid() && initFlag && Computes(crc, init, buf[..i])
      {
        ComputesNext(crc, init, buf[..i], buf[i]);
        assert buf[..i] + [buf[i]] == buf[..i + 1];
        FilledAt(table[..], Mix(crc, Wide(buf[i])));
        crc := Mix(Shr8(crc), table[Narrow(Mix(crc, Wide(buf[i]))) as int]);
      }
      assert buf[..|buf|] == buf;
    }
  }

  lemma EntryIs(c: bv32)
    ensures Entry(c) == Steps(0, c, 8)
  {
  }

  /** Reverses the initial value's 24 bits. */
  method Reflect(init: bv32) returns (crc: bv32)
    ensures Computes(crc, init, [])
  {
    hide Loaded, TakeIn, Shr1, Computes;
    crc := 0;
    var rest := init;
    LoadStart(init);
    for i := 0 to 24
      invariant Loaded(crc, rest, init, i)
    {
      LoadNext(crc, rest, init, i);
      crc, rest := TakeIn(crc, rest), Shr1(rest);
    }
    LoadEnd(crc, rest, init);
  }
}
