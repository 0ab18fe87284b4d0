// The two passes as the assembler runs them over a whole file, the object file they
// produce, and the loader that reads it.
module AssemblerPasses {
  import opened Mips
  import opened Encoding
  import opened Assembler
  import opened AssemblerRuns
  import opened MainMemory
  import S = Sequential

  // ---- The first pass over a file with its sections

  datatype FileState = FileState(inData: bool, name: string, data: seq<Entry>, dataPointer: int, text: First)

  function FirstFile(tokens: seq<string>, rd: Reader, st: FileState): FileState
    decreases |tokens|
  {
    if tokens == [] then st
    else
      var t, rest := tokens[0], tokens[1..];
      if t == ".data" then FirstFile(rest, rd, st.(inData := true))
      else if t == ".text" then FirstFile(rest, rd, st.(inData := false))
      else if st.inData then
        if IsLabel(t) then FirstFile(rest, rd, st.(name := t[..|t| - 1]))
        else if t == ".word" then FirstFile(rest, rd, st)
        else
          FirstFile(rest, rd, st.(data := st.data + [Entry(st.name, rd.number(t), st.dataPointer)],
                                  dataPointer := st.dataPointer + 4))
      else if IsLabel(t) then
        FirstFile(rest, rd,
                  st.(text := First(st.text.labels + [Entry(t[..|t| - 1], 0, st.text.pointer)], st.text.pointer)))
      else if Check(t, 0) == LA && |tokens| >= 3 then
        FirstFile(tokens[3..], rd,
                  st.(text := st.text.(pointer := st.text.pointer + 4 * LaWords(FindAddress(st.data, tokens[2])))))
      else if Check(t, 0) >= 0 then FirstFile(rest, rd, st.(text := st.text.(pointer := st.text.pointer + 4)))
      else FirstFile(rest, rd, st)
  }

  predicate NoSections(tokens: seq<string>) { ".data" !in tokens && ".text" !in tokens }

  // Once .text has been read, the first pass sees the text and the data read before it.
  lemma {:induction false} TextAfterData(tokens: seq<string>, rd: Reader, st: FileState)
    requires NoSections(tokens) && !st.inData
    ensures FirstFile(tokens, rd, st) == st.(text := FirstPass(tokens, st.data, st.text))
    decreases |tokens|
  {
    hide Check, FindAddress, LaWords;
    if tokens != [] {
      var t, rest := tokens[0], tokens[1..];
      assert t in tokens && NoSections(rest);
      if IsLabel(t) {
        TextAfterData(rest, rd,
                      st.(text := First(st.text.labels + [Entry(t[..|t| - 1], 0, st.text.pointer)], st.text.pointer)));
      } else if Check(t, 0) == LA && |tokens| >= 3 {
        assert NoSections(tokens[3..]);
        TextAfterData(tokens[3..], rd,
          st.(text := st.text.(pointer := st.text.pointer + 4 * LaWords(FindAddress(st.data, tokens[2])))));
      } else if Check(t, 0) >= 0 {
        TextAfterData(rest, rd, st.(text := st.text.(pointer := st.text.pointer + 4)));
      } else {
        TextAfterData(rest, rd, st);
      }
    }
  }

  // In the data section the first pass reads names and values only.
  lemma {:induction false} DataThenRest(d: seq<string>, rest: seq<string>, rd: Reader, st: FileState)
    requires NoSections(d) && st.inData
    ensures FirstFile(d + rest, rd, st) == FirstFile(rest, rd, FirstFile(d, rd, st))
    ensures var after := FirstFile(d, rd, st);
      && after.inData && after.text == st.text && |after.data| >= |st.data|
      && after.dataPointer == st.dataPointer + 4 * (|after.data| - |st.data|)
    decreases d
  {
    if d == [] {
      assert d + rest == rest;
    } else {
      var t, more := d[0], d[1..];
      assert t in d && NoSections(more) && (d + rest)[0] == t && (d + rest)[1..] == more + rest;
      if IsLabel(t) {
        DataThenRest(more, rest, rd, st.(name := t[..|t| - 1]));
      } else if t == ".word" {
        DataThenRest(more, rest, rd, st);
      } else {
        DataThenRest(more, rest, rd, st.(data := st.data + [Entry(st.name, rd.number(t), st.dataPointer)],
                                         dataPointer := st.dataPointer + 4));
      }
    }
  }

  // The data list of a data section.
  function DataOf(d: seq<string>, rd: Reader): seq<Entry> {
    FirstFile(d, rd, FileState(true, [], [], DATA_START, First([], TEXT))).data
  }

  // The first pass over a file with its data before its text.
  lemma FirstFileOf(d: seq<string>, text: seq<string>, rd: Reader, flag: bool)
    requires NoSections(d) && NoSections(text)
    ensures var st := FirstFile([".data"] + d + [".text"] + text, rd,
                                FileState(flag, [], [], DATA_START, First([], TEXT)));
      && st.data == DataOf(d, rd)
      && st.dataPointer == DATA_START + 4 * |st.data|
      && st.text == FirstPass(text, st.data, First([], TEXT))
  {
    var start := FileState(true, [], [], DATA_START, First([], TEXT));
    var tokens := [".data"] + d + [".text"] + text;
    SectionStart(".data", d + ([".text"] + text), rd, FileState(flag, [], [], DATA_START, First([], TEXT)));
    assert tokens == [".data"] + (d + ([".text"] + text));
    DataThenRest(d, [".text"] + text, rd, start);
    var mid := FirstFile(d, rd, start);
    SectionStart(".text", text, rd, mid);
    TextAfterData(text, rd, mid.(inData := false));
    hide FirstFile, FirstPass;
  }

  lemma SectionStart(t: string, rest: seq<string>, rd: Reader, st: FileState)
    requires t == ".data" || t == ".text"
    ensures FirstFile([t] + rest, rd, st) == FirstFile(rest, rd, st.(inData := t == ".data"))
  {
    assert ([t] + rest)[1..] == rest;
  }

  // ---- The object file

  function Image(words: seq<Format>): (r: string)
    ensures |r| == 32 * |words|
  {
    if words == [] then [] else Image(words[..|words| - 1]) + Encode(words[|words| - 1])
  }

  lemma {:induction false} ImageOfSum(a: seq<Format>, b: seq<Format>)
    ensures Image(a + b) == Image(a) + Image(b)
  {
    hide Encode;
    if b == [] {
      assert a + b == a;
    } else {
      ImageOfSum(a, b[..|b| - 1]);
      assert (a + b)[..|a + b| - 1] == a + b[..|b| - 1];
    }
  }

  lemma SliceOfFront(a: string, b: string, i: nat)
    requires i + 32 <= |a|
    ensures (a + b)[i..i + 32] == a[i..i + 32]
  {
    assert forall k :: i <= k < i + 32 ==> (a + b)[k] == a[k];
  }

  lemma SliceOfBack(a: string, b: string, i: nat)
    requires i + 32 <= |b|
    ensures (a + b)[|a| + i..|a| + i + 32] == b[i..i + 32]
  {
    assert forall k :: 0 <= k < |b| ==> (a + b)[|a| + k] == b[k];
  }

  lemma {:induction false} ImageAt(words: seq<Format>, k: nat)
    requires k < |words|
    ensures Image(words)[32 * k..32 * k + 32] == Encode(words[k])
  {
    hide Encode;
    if k < |words| - 1 {
      ImageAt(words[..|words| - 1], k);
      SliceOfFront(Image(words[..|words| - 1]), Encode(words[|words| - 1]), 32 * k);
    }
  }

  function DataImage(data: seq<Entry>): (r: string)
    ensures |r| == 32 * |data|
  {
    if data == [] then [] else DataImage(data[..|data| - 1]) + Bits(data[|data| - 1].value, 32)
  }

  function ObjectFile(words: seq<Format>, data: seq<Entry>): string {
    Bits(4 * |words|, 32) + Bits(4 * |data|, 32) + Image(words) + DataImage(data)
  }

  // ---- la in an object file that fits the buffer of the assembler

  const MAX_BINARY := 10000

  predicate Consecutive(data: seq<Entry>) {
    forall i :: 0 <= i < |data| ==> data[i].address == DATA_START + 4 * i
  }

  lemma {:induction false} AddressesOf(d: seq<string>, rd: Reader, st: FileState)
    requires NoSections(d) && st.inData && st.dataPointer == DATA_START + 4 * |st.data| && Consecutive(st.data)
    ensures Consecutive(FirstFile(d, rd, st).data)
    decreases d
  {
    if d != [] {
      var t, more := d[0], d[1..];
      assert t in d && NoSections(more);
      if IsLabel(t) {
        AddressesOf(more, rd, st.(name := t[..|t| - 1]));
      } else if t == ".word" {
        AddressesOf(more, rd, st);
      } else {
        AddressesOf(more, rd, st.(data := st.data + [Entry(st.name, rd.number(t), st.dataPointer)],
                                  dataPointer := st.dataPointer + 4));
      }
    }
  }

  lemma {:induction false} FindsEntry(list: seq<Entry>, name: string) returns (i: nat)
    requires exists e :: e in list && e.name == name
    ensures i < |list| && list[i].name == name && FindAddress(list, name) == list[i].address
  {
    if list[0].name == name {
      i := 0;
    } else {
      i := FindsEntry(list[1..], name);
      i := i + 1;
    }
  }

  // The la of a name of the data section leaves the address of a word of that name in
  // its register: the addresses of so few words all have a low half below 0x8000.
  lemma LaLoadsData(d: seq<string>, program: seq<Statement>, rd: Reader, p: Program, m: S.Machine, k: nat)
    requires NoSections(d) && AllWellFormed(program) && k < |program|
    requires LoadedFrom(p, Assembled(program, rd, DataOf(d, rd)))
    requires |ObjectFile(Assembled(program, rd, DataOf(d, rd)), DataOf(d, rd))| < MAX_BINARY
    requires program[k].Instr? && program[k].num == LA && |program[k].args| == 2
    requires exists e :: e in DataOf(d, rd) && e.name == program[k].args[1]
    requires m.pc == AddressOf(program, DataOf(d, rd), k)
    ensures var data, r := DataOf(d, rd), rd.reg(program[k].args[0]) % 32;
      var after := S.Run(p, m, Size(program[k], data));
      && after.pc == AddressOf(program, data, k) + 4 * Size(program[k], data)
      && exists e :: e in data && e.name == program[k].args[1] && after.regs[r] == e.address
  {
    hide Bits, FirstFile, Image, DataImage, S.Run, Size, LoadedFrom, AddressOf, Assembled;
    var data := DataOf(d, rd);
    AddressesOf(d, rd, FileState(true, [], [], DATA_START, First([], TEXT)));
    var i := FindsEntry(data, program[k].args[1]);
    assert Consecutive(data) && |data| < 311;
    assert data[i].address == DATA_START + 4 * i;
    LaLoads(program, rd, data, p, m, k);
    assert data[i] in data;
  }

  lemma NoTextBefore(d: seq<string>)
    requires NoSections(d)
    ensures ".text" !in [".data"] + d
  {
  }

  // ---- The loader

  // The words that the object file holds.
  function TextWords(words: seq<Format>): (r: seq<Word>)
    ensures |r| == |words|
  {
    if words == [] then [] else TextWords(words[..|words| - 1]) + [ValueOf(Encode(words[|words| - 1]))]
  }

  function DataWords(data: seq<Entry>): (r: seq<Word>)
    ensures |r| == |data|
  {
    if data == [] then [] else DataWords(data[..|data| - 1]) + [data[|data| - 1].value % TWO_32]
  }

  function ValueOf(s: string): Word
    requires |s| == 32
  {
    BitsBound(s);
    Pow2Of32();
    FromBits(s)
  }

  // The words lie one after the other from `start` on.
  ghost predicate WordsAt(m: Memory, start: Word, ws: seq<Word>)
    requires start + 4 * |ws| <= TWO_32
  {
    forall k :: 0 <= k < |ws| ==> HoldsAt(m, start + 4 * k, ws[k])
  }

  ghost predicate HoldsAt(m: Memory, a: Word, w: Word) { InMemory(a) && ReadWord(m, a) == w }

  predicate Apart(a: Word, start: Word, n: nat) { a + 4 <= start || start + 4 * n <= a }

  // The rest of the memory is the same.
  ghost predicate RestSame(m: Memory, m': Memory, text: nat, data: nat) {
    forall a: Word :: InMemory(a) && Apart(a, TEXT_START, text) && Apart(a, DATA_START, data) ==>
      ReadWord(m', a) == ReadWord(m, a)
  }

  lemma TextWritten(m: Memory, texts: seq<Word>, datas: seq<Word>, w: Word)
    requires 4 * |texts| + 4 <= REGION_SIZE && 4 * |datas| <= REGION_SIZE
    requires WordsAt(m, TEXT_START, texts) && WordsAt(m, DATA_START, datas)
    ensures InMemory(TEXT_START + 4 * |texts|)
    ensures var m' := WriteWord(m, TEXT_START + 4 * |texts|, w);
      WordsAt(m', TEXT_START, texts + [w]) && WordsAt(m', DATA_START, datas)
  {
    hide ReadWord, WriteWord;
    var a := TEXT_START + 4 * |texts|;
    forall k | 0 <= k < |texts| + 1
      ensures HoldsAt(WriteWord(m, a, w), TEXT_START + 4 * k, (texts + [w])[k])
    {
      assert k < |texts| ==> HoldsAt(m, TEXT_START + 4 * k, texts[k]);
      ReadAfterWrite(m, a, w, TEXT_START + 4 * k);
    }
    forall k | 0 <= k < |datas|
      ensures HoldsAt(WriteWord(m, a, w), DATA_START + 4 * k, datas[k])
    {
      assert HoldsAt(m, DATA_START + 4 * k, datas[k]);
      ReadAfterWrite(m, a, w, DATA_START + 4 * k);
    }
  }

  lemma DataWritten(m: Memory, texts: seq<Word>, datas: seq<Word>, w: Word)
    requires 4 * |texts| <= REGION_SIZE && 4 * |datas| + 4 <= REGION_SIZE
    requires WordsAt(m, TEXT_START, texts) && WordsAt(m, DATA_START, datas)
    ensures InMemory(DATA_START + 4 * |datas|)
    ensures var m' := WriteWord(m, DATA_START + 4 * |datas|, w);
      WordsAt(m', TEXT_START, texts) && WordsAt(m', DATA_START, datas + [w])
  {
    hide ReadWord, WriteWord;
    var a := DATA_START + 4 * |datas|;
    forall k | 0 <= k < |datas| + 1
      ensures HoldsAt(WriteWord(m, a, w), DATA_START + 4 * k, (datas + [w])[k])
    {
      assert k < |datas| ==> HoldsAt(m, DATA_START + 4 * k, datas[k]);
      ReadAfterWrite(m, a, w, DATA_START + 4 * k);
    }
    forall k | 0 <= k < |texts|
      ensures HoldsAt(WriteWord(m, a, w), TEXT_START + 4 * k, texts[k])
    {
      assert HoldsAt(m, TEXT_START + 4 * k, texts[k]);
      ReadAfterWrite(m, a, w, TEXT_START + 4 * k);
    }
  }

  lemma RestWritten(m: Memory, m': Memory, text: nat, data: nat, a: Word, w: Word, text': nat, data': nat)
    requires RestSame(m, m', text, data) && text <= text' && data <= data' && InMemory(a)
    requires (a == TEXT_START + 4 * text && text < text') || (a == DATA_START + 4 * data && data < data')
    ensures RestSame(m, WriteWord(m', a, w), text', data')
  {
    hide ReadWord, WriteWord;
    forall b: Word | InMemory(b) && Apart(b, TEXT_START, text') && Apart(b, DATA_START, data')
      ensures ReadWord(WriteWord(m', a, w), b) == ReadWord(m, b)
    {
      ReadAfterWrite(m', a, w, b);
    }
  }

  // load_program: the first two words give the sizes; the words of the text are decoded
  // into the instruction table and written to memory, those of the data written to memory.
  method Load(binary: string, memory: MemoryRegions, ghost words: seq<Format>, ghost data: seq<Entry>)
    returns (p: seq<Instruction>)
    requires binary == ObjectFile(words, data) && memory.Valid()
    requires 4 * |words| <= REGION_SIZE && 4 * |data| <= REGION_SIZE
    modifies memory.text, memory.data
    ensures LoadedFrom(p, words)
    ensures WordsAt(memory.View(), TEXT_START, TextWords(words))
    ensures WordsAt(memory.View(), DATA_START, DataWords(data))
    ensures RestSame(old(memory.View()), memory.View(), |words|, |data|)
  {
    hide Bits, FromBits, Decode, Encode, Image, DataImage, WordsAt, RestSame, TextWords, DataWords, ObjectFile, Reads;
    HeaderOf(words, data);
    NothingLoaded(memory.View());
    var textSize, dataSize := FromBits(binary[..32]), FromBits(binary[32..64]);
    p := [];
    for ii := 0 to textSize / 4
      invariant |p| == ii && LoadedFrom(p, words[..ii])
      invariant WordsAt(memory.View(), TEXT_START, TextWords(words[..ii])) && WordsAt(memory.View(), DATA_START, [])
      invariant RestSame(old(memory.View()), memory.View(), ii, 0)
    {
      WordOf(words, data, ii);
      p := LoadText(binary[64 + 32 * ii..64 + 32 * ii + 32], memory, p, words[..ii], words[ii], old(memory.View()));
      assert words[..ii + 1] == words[..ii] + [words[ii]];
    }
    assert words[..|words|] == words;
    for ii := 0 to dataSize / 4
      invariant WordsAt(memory.View(), TEXT_START, TextWords(words))
      invariant WordsAt(memory.View(), DATA_START, DataWords(data[..ii]))
      invariant RestSame(old(memory.View()), memory.View(), |words|, ii)
    {
      DataWordOf(words, data, ii);
      var at := 64 + 32 * (textSize / 4 + ii);
      LoadData(binary[at..at + 32], memory, 4 * ii, words, data[..ii], data[ii], old(memory.View()));
      assert data[..ii + 1] == data[..ii] + [data[ii]];
    }
    assert data[..|data|] == data;
  }

  lemma NothingLoaded(m: Memory)
    ensures WordsAt(m, TEXT_START, TextWords([])) && WordsAt(m, DATA_START, []) && RestSame(m, m, 0, 0)
    ensures DataWords([]) == []
  {
  }

  // parsing_instr
  method LoadText(buffer: string, memory: MemoryRegions, p: seq<Instruction>, ghost done: seq<Format>, ghost w: Format,
                  ghost before: Memory)
    returns (p': seq<Instruction>)
    requires buffer == Encode(w) && memory.Valid() && 4 * |done| + 4 <= REGION_SIZE
    requires LoadedFrom(p, done) && RestSame(before, memory.View(), |done|, 0)
    requires WordsAt(memory.View(), TEXT_START, TextWords(done)) && WordsAt(memory.View(), DATA_START, [])
    modifies memory.text, memory.data
    ensures LoadedFrom(p', done + [w]) && RestSame(before, memory.View(), |done| + 1, 0)
    ensures WordsAt(memory.View(), TEXT_START, TextWords(done + [w])) && WordsAt(memory.View(), DATA_START, [])
  {
    hide Bits, FromBits, Decode, Encode, WordsAt, RestSame, ReadWord, WriteWord, Reads;
    ghost var m := memory.View();
    TextWritten(m, TextWords(done), [], ValueOf(buffer));
    RestWritten(before, m, |done|, 0, TEXT_START + 4 * |done|, ValueOf(buffer), |done| + 1, 0);
    LoadedMore(p, done, w);
    assert (done + [w])[..|done|] == done;
    var found := memory.Write32(TEXT_START + 4 * |p|, ValueOf(buffer));
    p' := p + [Decode(buffer)];
  }

  lemma LoadedMore(p: seq<Instruction>, done: seq<Format>, w: Format)
    requires LoadedFrom(p, done)
    ensures |p| == |done| && LoadedFrom(p + [Decode(Encode(w))], done + [w])
  {
    hide Decode, Encode;
    var p', words := p + [Decode(Encode(w))], done + [w];
    forall k | 0 <= k < |p'|
      ensures Reads(p', words, k)
    {
      assert k < |p| ==> Reads(p, done, k);
    }
  }

  // parsing_data
  method LoadData(buffer: string, memory: MemoryRegions, index: nat, ghost words: seq<Format>, ghost done: seq<Entry>,
                  ghost e: Entry, ghost before: Memory)
    requires buffer == Bits(e.value, 32) && memory.Valid() && index == 4 * |done|
    requires 4 * |words| <= REGION_SIZE && index + 4 <= REGION_SIZE
    requires RestSame(before, memory.View(), |words|, |done|)
    requires WordsAt(memory.View(), TEXT_START, TextWords(words)) && WordsAt(memory.View(), DATA_START, DataWords(done))
    modifies memory.text, memory.data
    ensures RestSame(before, memory.View(), |words|, |done| + 1)
    ensures WordsAt(memory.View(), TEXT_START, TextWords(words))
    ensures WordsAt(memory.View(), DATA_START, DataWords(done + [e]))
  {
    hide Bits, FromBits, Encode, WordsAt, RestSame, ReadWord, WriteWord, TextWords;
    ghost var m := memory.View();
    ReadBits(e.value, 32);
    Pow2Of32();
    DataWritten(m, TextWords(words), DataWords(done), ValueOf(buffer));
    RestWritten(before, m, |words|, |done|, DATA_START + index, ValueOf(buffer), |words|, |done| + 1);
    assert (done + [e])[..|done|] == done;
    var found := memory.Write32(DATA_START + index, ValueOf(buffer));
  }

  lemma HeaderOf(words: seq<Format>, data: seq<Entry>)
    requires 4 * |words| < TWO_32 && 4 * |data| < TWO_32
    ensures var binary := ObjectFile(words, data);
      && |binary| == 64 + 32 * |words| + 32 * |data|
      && FromBits(binary[..32]) == 4 * |words| && FromBits(binary[32..64]) == 4 * |data|
  {
    hide Bits, FromBits, Image, DataImage;
    Pow2Of32();
    ReadBits(4 * |words|, 32);
    ReadBits(4 * |data|, 32);
    assert ObjectFile(words, data)[..32] == Bits(4 * |words|, 32);
    assert ObjectFile(words, data)[32..64] == Bits(4 * |data|, 32);
  }

  lemma {:induction false} DataImageAt(data: seq<Entry>, k: nat)
    requires k < |data|
    ensures DataImage(data)[32 * k..32 * k + 32] == Bits(data[k].value, 32)
  {
    hide Bits;
    if k < |data| - 1 {
      DataImageAt(data[..|data| - 1], k);
      SliceOfFront(DataImage(data[..|data| - 1]), Bits(data[|data| - 1].value, 32), 32 * k);
    }
  }

  lemma DataWordOf(words: seq<Format>, data: seq<Entry>, k: nat)
    requires k < |data|
    ensures var binary, at := ObjectFile(words, data), 64 + 32 * (|words| + k);
      at + 32 <= |binary| && binary[at..at + 32] == Bits(data[k].value, 32)
  {
    hide Bits, Encode, Image, DataImage;
    DataImageAt(data, k);
    SliceOfBack(Bits(4 * |words|, 32) + Bits(4 * |data|, 32) + Image(words), DataImage(data), 32 * k);
  }

  lemma WordOf(words: seq<Format>, data: seq<Entry>, k: nat)
    requires k < |words|
    ensures var binary := ObjectFile(words, data);
      64 + 32 * k + 32 <= |binary| && binary[64 + 32 * k..64 + 32 * k + 32] == Encode(words[k])
  {
    hide Bits, Encode, Image, DataImage;
    ImageAt(words, k);
    var head := Bits(4 * |words|, 32) + Bits(4 * |data|, 32);
    SliceOfBack(head, Image(words), 32 * k);
    SliceOfFront(head + Image(words), DataImage(data), 64 + 32 * k);
  }

  lemma EmptyImage(words: seq<Format>)
    ensures Image([]) == [] && [] + words == words && forall s: string :: s + Image([]) == s
  {
  }

  lemma NothingLeft(done: seq<Format>, rd: Reader, labels: seq<Entry>, data: seq<Entry>, pc: int)
    ensures done + SecondPass([], rd, labels, data, pc) == done
  {
  }

  class TwoPass {
    var dataList: seq<Entry>
    var labelList: seq<Entry>
    var dataPointer: int
    var textPointer: int
    var binary: string

    constructor ()
      ensures dataList == [] && labelList == [] && dataPointer == DATA_START && textPointer == TEXT && binary == []
    {
      dataList, labelList, dataPointer, textPointer, binary := [], [], DATA_START, TEXT, [];
    }

    ghost function State(inData: bool, name: string): FileState
      reads this
    {
      FileState(inData, name, dataList, dataPointer, First(labelList, textPointer))
    }

    // The first scan loop. The source does not initialise its section flag.
    method FirstRead(tokens: seq<string>, rd: Reader, flag: bool) returns (dataFlag: bool, name: string)
      modifies this`dataList, this`labelList, this`dataPointer, this`textPointer
      ensures State(dataFlag, name) == FirstFile(tokens, rd, old(State(flag, [])))
    {
      hide Check, FindAddress, LaWords;
      name, dataFlag := [], flag;
      var i := 0;
      while i < |tokens|
        invariant i <= |tokens|
        invariant FirstFile(tokens[i..], rd, State(dataFlag, name)) == FirstFile(tokens, rd, old(State(flag, [])))
      {
        var s := tokens[i];
        assert tokens[i..][0] == s && tokens[i..][1..] == tokens[i + 1..];
        i := i + 1;
        if s == ".data" {
          dataFlag := true;
        } else if s == ".text" {
          dataFlag := false;
        } else if dataFlag {
          if IsLabel(s) {
            name := s[..|s| - 1];
          } else if s != ".word" {
            dataList := dataList + [Entry(name, rd.number(s), dataPointer)];
            dataPointer := dataPointer + 4;
          }
        } else if IsLabel(s) {
          labelList := labelList + [Entry(s[..|s| - 1], 0, textPointer)];
        } else if Check(s, 0) == LA && i + 2 <= |tokens| {
          assert tokens[i - 1..][3..] == tokens[i + 2..] && tokens[i - 1..][2] == tokens[i + 1];
          var address := FindAddress(dataList, tokens[i + 1]);
          textPointer := textPointer + 4 * LaWords(address);
          i := i + 2;
        } else if Check(s, 0) >= 0 {
          textPointer := textPointer + 4;
        }
      }
      assert tokens[i..] == [];
    }

    // The second scan loop.
    method SecondRead(tokens: seq<string>, rd: Reader, ghost before: seq<string>, ghost text: seq<string>)
      requires tokens == before + [".text"] + text && ".text" !in before && NoSections(text)
      modifies this`binary
      ensures binary == old(binary) + Image(SecondPass(text, rd, labelList, dataList, TEXT))
    {
      hide SecondPass, Image;
      var i := SkipTo(tokens, before, text);
      var pc := TEXT;
      ghost var done: seq<Format> := [];
      EmptyImage(SecondPass(text, rd, labelList, dataList, TEXT));
      while i < |tokens|
        invariant i <= |tokens| && binary == old(binary) + Image(done) && NoSections(tokens[i..])
        invariant done + SecondPass(tokens[i..], rd, labelList, dataList, pc)
          == SecondPass(text, rd, labelList, dataList, TEXT)
        decreases |tokens| - i
      {
        ghost var words;
        ghost var later := tokens[i..];
        i, pc, words := Emit(tokens, rd, i, pc);
        ImageOfSum(done, words);
        done := done + words;
        assert tokens[i..] == later[|later| - |tokens[i..]|..];
      }
      assert tokens[i..] == [];
      NothingLeft(done, rd, labelList, dataList, pc);
    }

    // The words of the token at i with its operands, if it is a mnemonic.
    method Emit(tokens: seq<string>, rd: Reader, i: nat, pc: int)
      returns (next: nat, nextPc: int, ghost words: seq<Format>)
      requires i < |tokens| && NoSections(tokens[i..])
      modifies this`binary
      ensures i < next <= |tokens| && binary == old(binary) + Image(words)
      ensures SecondPass(tokens[i..], rd, labelList, dataList, pc)
           == words + SecondPass(tokens[next..], rd, labelList, dataList, nextPc)
    {
      hide Check, IsLabel, FindAddress, Formats, Encode, Operands, Image;
      var s := tokens[i];
      var num := Check(s, 0);
      assert tokens[i..][0] == s && tokens[i..][1..] == tokens[i + 1..];
      next, nextPc, words := i + 1, pc, [];
      if s != ".text" && !IsLabel(s) && num != -1 && next + Operands(num) <= |tokens| {
        var args := tokens[next..next + Operands(num)];
        assert tokens[i..][1..1 + Operands(num)] == args;
        assert tokens[i..][1 + Operands(num)..] == tokens[next + Operands(num)..];
        var formats := Formats(num, args, rd, labelList, dataList, pc + 4);
        binary := binary + Image(formats);
        next, nextPc, words := next + Operands(num), pc + 4 * |formats|, formats;
      } else {
        EmptyImage(SecondPass(tokens[next..], rd, labelList, dataList, pc));
      }
    }

    // The whole of main: both passes and the data, behind the two sizes.
    method Assemble(tokens: seq<string>, rd: Reader, flag: bool, ghost d: seq<string>, ghost program: seq<Statement>)
      requires dataList == [] && labelList == [] && dataPointer == DATA_START && textPointer == TEXT && binary == []
      requires AllWellFormed(program) && NoSections(d) && NoSections(Tokens(program))
      requires tokens == [".data"] + d + [".text"] + Tokens(program)
      modifies this
      ensures dataList == DataOf(d, rd)
      ensures binary == ObjectFile(Assembled(program, rd, dataList), dataList)
    {
      hide FirstFile, FirstPass, SecondPass, Tokens, Image, Bits;
      ghost var text := Tokens(program);
      FirstFileOf(d, text, rd, flag);
      var dataFlag, name := FirstRead(tokens, rd, flag);
      assert labelList == LabelList(program, dataList);
      TextSizeRight(program, rd, dataList);
      var textSize, dataSize := textPointer - TEXT, dataPointer - DATA_START;
      ghost var words := Assembled(program, rd, dataList);
      assert textSize == 4 * |words| && dataSize == 4 * |dataList|;
      binary := Bits(textSize, 32) + Bits(dataSize, 32);
      NoTextBefore(d);
      SecondRead(tokens, rd, [".data"] + d, text);
      WriteData();
    }

    method WriteData()
      modifies this`binary
      ensures binary == old(binary) + DataImage(dataList)
    {
      hide Bits;
      var k := 0;
      while k < |dataList|
        invariant k <= |dataList| && binary == old(binary) + DataImage(dataList[..k])
      {
        assert dataList[..k + 1][..k] == dataList[..k];
        binary := binary + Bits(dataList[k].value, 32);
        k := k + 1;
      }
      assert dataList[..k] == dataList;
    }

    method SkipTo(tokens: seq<string>, ghost before: seq<string>, ghost text: seq<string>) returns (i: nat)
      requires tokens == before + [".text"] + text && ".text" !in before
      ensures i <= |tokens| && tokens[i..] == text
    {
      i := 0;
      while tokens[i] != ".text"
        invariant i <= |before|
        decreases |before| - i
      {
        FirstText(before, text, i);
        i := i + 1;
      }
      FirstText(before, text, i);
      i := i + 1;
    }
  }

  lemma FirstText(before: seq<string>, text: seq<string>, i: nat)
    requires i <= |before| && ".text" !in before
    ensures (before + [".text"] + text)[i] == ".text" <==> i == |before|
  {
  }
}
