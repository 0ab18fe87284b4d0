// The simulated memory as the simulators hold it: one byte buffer per region.
module MainMemory {
  import opened Mips

  class MemoryRegions {
    const text: array<Byte>
    const data: array<Byte>

    ghost predicate Valid()
      reads this
    {
      text.Length == REGION_SIZE && data.Length == REGION_SIZE && text != data
    }

    ghost function View(): Memory
      reads this, text, data
      requires Valid()
    {
      Memory(text[..], data[..])
    }

    constructor ()
      ensures Valid() && fresh(text) && fresh(data)
      ensures View() == Memory(seq(REGION_SIZE, _ => 0), seq(REGION_SIZE, _ => 0))
    {
      text := new Byte[REGION_SIZE](_ => 0);
      data := new Byte[REGION_SIZE](_ => 0);
      new;
      assert text[..] == seq(REGION_SIZE, _ => 0);
      assert data[..] == seq(REGION_SIZE, _ => 0);
    }

    // mem_read_32. The flag is false where no region holds the word.
    method Read32(address: Word) returns (found: bool, value: Word)
      requires Valid()
      ensures found == InMemory(address)
      ensures value == if found then ReadWord(View(), address) else 0
    {
      if InRegion(TEXT_START, address) {
        found, value := true, LoadBytes(text[..], address - TEXT_START);
      } else if InRegion(DATA_START, address) {
        found, value := true, LoadBytes(data[..], address - DATA_START);
      } else {
        found, value := false, 0;
      }
    }

    // mem_write_32, byte by byte from the most significant one.
    method Write32(address: Word, value: Word) returns (found: bool)
      requires Valid()
      modifies text, data
      ensures found == InMemory(address)
      ensures View() == if found then WriteWord(old(View()), address, value) else old(View())
    {
      if InRegion(TEXT_START, address) {
        StoreWord(text, address - TEXT_START, value);
        found := true;
      } else if InRegion(DATA_START, address) {
        StoreWord(data, address - DATA_START, value);
        found := true;
      } else {
        found := false;
      }
    }

    static method StoreWord(region: array<Byte>, offset: nat, value: Word)
      requires region.Length == REGION_SIZE && offset + 3 < REGION_SIZE
      modifies region
      ensures region[..] == StoreBytes(old(region[..]), offset, value)
    {
      region[offset + 3] := ByteOf(value, 3);
      region[offset + 2] := ByteOf(value, 2);
      region[offset + 1] := ByteOf(value, 1);
      region[offset] := ByteOf(value, 0);
    }
  }
}
