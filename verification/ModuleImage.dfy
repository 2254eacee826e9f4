/** Packing modules behind the kernel and loading them at boot: the image format, the packer's loops,
    the two copying loops of `memcpy`, and the round trip through memory. */
module ModuleImage {
  import opened Powers

  type Byte = b: int | 0 <= b < 256

  const WORD: nat := 4
  const TWO_32: nat := 0x1_0000_0000
  const BUFFER_SIZE: nat := 128

  // ----- the format -----

  /** A 32-bit number, least significant byte first. */
  function LittleEndian(n: nat): (r: seq<Byte>)
    ensures |r| == WORD
  {
    [n % 256, n / 256 % 256, n / 256 / 256 % 256, n / 256 / 256 / 256 % 256]
  }

  function Combined(b0: int, b1: int, b2: int, b3: int): int {
    b0 + 256 * b1 + 65536 * b2 + 16777216 * b3
  }

  function ReadLittleEndian(b: seq<Byte>): nat
    requires |b| == WORD
  {
    Combined(b[0], b[1], b[2], b[3])
  }

  /** Four bytes carry a number exactly when it is below 2^32; otherwise its remainder. */
  lemma LittleEndianRoundTrip(n: nat)
    ensures ReadLittleEndian(LittleEndian(n)) == n % TWO_32
    ensures ReadLittleEndian(LittleEndian(n)) == n <==> n < TWO_32
  {
    var q1 := n / 256;
    var q2 := q1 / 256;
    var q3 := q2 / 256;
    var q4 := q3 / 256;
    assert n == 256 * q1 + n % 256 && q1 == 256 * q2 + q1 % 256 && q2 == 256 * q3 + q2 % 256 && q3 == 256 * q4 + q3 % 256;
    Remainder(n, q4, ReadLittleEndian(LittleEndian(n)));
  }

  /** The least significant byte comes first. */
  lemma LeastFirst(n: nat)
    ensures n < 256 ==> LittleEndian(n) == [n, 0, 0, 0]
    ensures LittleEndian(n)[0] == n % 256 && LittleEndian(n)[1..] == LittleEndian(n / 256)[..3]
  {
  }

  lemma Remainder(n: nat, q: nat, r: nat)
    requires n == q * TWO_32 + r && r < TWO_32
    ensures n % TWO_32 == r && (n < TWO_32 <==> q == 0)
  {
  }

  /** Each module behind its size. */
  function Records(modules: seq<seq<Byte>>): seq<Byte> {
    if modules == [] then []
    else Records(modules[..|modules| - 1]) + LittleEndian(|modules[|modules| - 1]|) + modules[|modules| - 1]
  }

  /** The number of modules, then the modules. */
  function Payload(modules: seq<seq<Byte>>): seq<Byte> {
    LittleEndian(|modules|) + Records(modules)
  }

  // ----- the packer -----

  /** `write_file`: read and write in chunks until a read comes up short. */
  method WriteFile(target: seq<Byte>, source: seq<Byte>) returns (result: seq<Byte>)
    ensures result == target + source
  {
    result := target;
    var pos, eof := 0, false;
    while !eof
      invariant 0 <= pos <= |source| && result == target + source[..pos] && (eof ==> pos == |source|)
      decreases !eof, |source| - pos
    {
      var read := if |source| - pos < BUFFER_SIZE then |source| - pos else BUFFER_SIZE;
      eof := read < BUFFER_SIZE;
      assert source[..pos] + source[pos..pos + read] == source[..pos + read];
      result := result + source[pos..pos + read];
      pos := pos + read;
    }
    assert source[..pos] == source;
  }

  /** `buildImage`: the kernel, the number of other files, and each of them behind its size. */
  method BuildImage(files: seq<seq<Byte>>) returns (image: seq<Byte>)
    requires files != []
    ensures image == files[0] + Payload(files[1..])
  {
    image := WriteFile([], files[0]);
    var extra := |files| - 1;
    image := image + LittleEndian(extra);
    var i := 1;
    while i < |files|
      invariant 1 <= i <= |files|
      invariant image == files[0] + (LittleEndian(extra) + Records(files[1..i]))
    {
      ghost var before := image;
      image := image + LittleEndian(|files[i]|);
      image := WriteFile(image, files[i]);
      RecordsPush(files[1..i], files[i]);
      assert files[1..i] + [files[i]] == files[1..i + 1];
      assert image == files[0] + (LittleEndian(extra) + (Records(files[1..i]) + LittleEndian(|files[i]|) + files[i]));
      i := i + 1;
    }
    assert files[1..|files|] == files[1..];
  }

  lemma RecordsPush(modules: seq<seq<Byte>>, m: seq<Byte>)
    ensures Records(modules + [m]) == Records(modules) + LittleEndian(|m|) + m
  {
    assert (modules + [m])[..|modules|] == modules;
  }

  // ----- memory -----

  ghost predicate Apart(a: nat, n: nat, b: nat, m: nat) {
    a + n <= b || b + m <= a
  }

  /** `memcpy`: word by word when everything is aligned, else byte by byte. Either way the bytes at the
      destination are those of an upward copy, which are the source's unless the destination begins
      inside the source (`MemCopyIff`). */
  method MemCopy(mem: array<Byte>, destination: nat, source: nat, length: nat)
    requires destination + length <= mem.Length && source + length <= mem.Length
    modifies mem
    ensures mem[..] == CopiedUp(old(mem[..]), destination, source, length)
    ensures !(source < destination < source + length) ==> mem[..] == Copied(old(mem[..]), destination, source, length)
  {
    UpIsCopied(mem[..], destination, source, length);
    if destination % WORD == 0 && source % WORD == 0 && length % WORD == 0 {
      CopyWords(mem, destination, source, length);
    } else {
      CopyBytes(mem, destination, source, length);
    }
  }

  /** Memory with the source's bytes at the destination. */
  function Copied(mem: seq<Byte>, destination: nat, source: nat, length: nat): (r: seq<Byte>)
    requires destination + length <= |mem| && source + length <= |mem|
    ensures |r| == |mem|
    ensures forall k | 0 <= k < |mem| ::
              r[k] == if destination <= k < destination + length then mem[source + (k - destination)] else mem[k]
  {
    mem[..destination] + mem[source..source + length] + mem[destination + length..]
  }

  /** Which byte an upward copy leaves `k` bytes into the destination: above the source, its first bytes
      come round again and again. */
  function Origin(destination: nat, source: nat, k: nat): (r: nat)
    ensures r <= source + k
  {
    if source < destination <= source + k then Origin(destination, source, k - (destination - source)) else source + k
  }

  function UpByte(mem: seq<Byte>, destination: nat, source: nat, length: nat, k: nat): Byte
    requires destination + length <= |mem| && source + length <= |mem| && k < |mem|
  {
    if destination <= k < destination + length then mem[Origin(destination, source, k - destination)] else mem[k]
  }

  /** Memory after an upward copy. */
  function CopiedUp(mem: seq<Byte>, destination: nat, source: nat, length: nat): (r: seq<Byte>)
    requires destination + length <= |mem| && source + length <= |mem|
    ensures |r| == |mem| && forall k | 0 <= k < |mem| :: r[k] == UpByte(mem, destination, source, length, k)
  {
    seq(|mem|, k requires 0 <= k < |mem| => UpByte(mem, destination, source, length, k))
  }

  /** `memcpy` delivers the source, whatever memory holds, exactly if the destination does not begin
      inside the source. */
  lemma MemCopyIff(size: nat, destination: nat, source: nat, length: nat)
    requires destination + length <= size && source + length <= size
    ensures (forall mem: seq<Byte> | |mem| == size ::
               CopiedUp(mem, destination, source, length) == Copied(mem, destination, source, length))
            <==> !(source < destination < source + length)
  {
    if source < destination < source + length {
      UpIsNotCopied(size, destination, source, length);
    } else {
      forall mem: seq<Byte> | |mem| == size
        ensures CopiedUp(mem, destination, source, length) == Copied(mem, destination, source, length)
      {
        UpIsCopied(mem, destination, source, length);
      }
    }
  }

  lemma UpIsCopied(mem: seq<Byte>, destination: nat, source: nat, length: nat)
    requires destination + length <= |mem| && source + length <= |mem|
    ensures !(source < destination < source + length) ==>
              CopiedUp(mem, destination, source, length) == Copied(mem, destination, source, length)
  {
    hide CopiedUp;
    if !(source < destination < source + length) {
      forall k | 0 <= k < |mem|
        ensures CopiedUp(mem, destination, source, length)[k] == Copied(mem, destination, source, length)[k]
      {
        assert destination <= k < destination + length ==>
                 Origin(destination, source, k - destination) == source + (k - destination);
      }
    }
  }

  /** The byte on which the destination begins is overwritten before it is read. */
  lemma UpIsNotCopied(size: nat, destination: nat, source: nat, length: nat)
    requires destination + length <= size && source < destination < source + length
    ensures exists mem: seq<Byte> | |mem| == size ::
              CopiedUp(mem, destination, source, length) != Copied(mem, destination, source, length)
  {
    hide CopiedUp;
    var mem: seq<Byte> := seq(size, k => if k == destination then 1 else 0);
    var at := destination + (destination - source);
    assert Origin(destination, source, destination - source) == source;
    assert CopiedUp(mem, destination, source, length)[at] == 0 && Copied(mem, destination, source, length)[at] == 1;
  }

  /** The word loop, on the aligned addresses it is used for. */
  method CopyWords(mem: array<Byte>, destination: nat, source: nat, length: nat)
    requires destination + length <= mem.Length && source + length <= mem.Length
    requires destination % WORD == 0 && source % WORD == 0 && length % WORD == 0
    modifies mem
    ensures mem[..] == CopiedUp(old(mem[..]), destination, source, length)
  {
    hide CopiedUp;
    ghost var was := mem[..];
    var i := 0;
    UpNothing(was, destination, source);
    while i < length / WORD
      invariant 0 <= i <= length / WORD && mem[..] == CopiedUp(was, destination, source, WORD * i)
    {
      UpWord(was, destination, source, length, WORD * i);
      CopyWord(mem, destination + WORD * i, source + WORD * i);
      i := i + 1;
    }
  }

  /** One 32-bit load and store. */
  method CopyWord(mem: array<Byte>, d: nat, s: nat)
    requires d + WORD <= mem.Length && s + WORD <= mem.Length
    modifies mem
    ensures mem[..] == Stored(old(mem[..]), d, old(mem[s]), old(mem[s + 1]), old(mem[s + 2]), old(mem[s + 3]))
  {
    mem[d], mem[d + 1], mem[d + 2], mem[d + 3] := mem[s], mem[s + 1], mem[s + 2], mem[s + 3];
  }

  function Stored(mem: seq<Byte>, d: nat, b0: Byte, b1: Byte, b2: Byte, b3: Byte): (r: seq<Byte>)
    requires d + WORD <= |mem|
    ensures |r| == |mem| && forall k | 0 <= k < |mem| ::
              r[k] == if k == d then b0 else if k == d + 1 then b1
                      else if k == d + 2 then b2 else if k == d + 3 then b3 else mem[k]
  {
    mem[d := b0][d + 1 := b1][d + 2 := b2][d + 3 := b3]
  }

  /** A word is four bytes, also over a buffer that overlaps itself by whole words. */
  lemma UpWord(mem: seq<Byte>, destination: nat, source: nat, length: nat, i: nat)
    requires destination + length <= |mem| && source + length <= |mem| && i + WORD <= length
    requires destination <= source || source + WORD <= destination
    ensures var r, s := CopiedUp(mem, destination, source, i), source + i;
            CopiedUp(mem, destination, source, i + WORD) == Stored(r, destination + i, r[s], r[s + 1], r[s + 2], r[s + 3])
  {
    UpReads(mem, destination, source, length, i, i);
    UpReads(mem, destination, source, length, i, i + 1);
    UpReads(mem, destination, source, length, i, i + 2);
    UpReads(mem, destination, source, length, i, i + 3);
    WordAsBytes(mem, destination, source, length, i);
  }

  lemma WordAsBytes(mem: seq<Byte>, destination: nat, source: nat, length: nat, i: nat)
    requires destination + length <= |mem| && source + length <= |mem| && i + WORD <= length
    ensures var r := CopiedUp(mem, destination, source, i);
            CopiedUp(mem, destination, source, i + WORD)
            == Stored(r, destination + i, mem[Origin(destination, source, i)], mem[Origin(destination, source, i + 1)],
                      mem[Origin(destination, source, i + 2)], mem[Origin(destination, source, i + 3)])
  {
    hide CopiedUp, Stored, Origin;
  }

  /** The byte loop. */
  method CopyBytes(mem: array<Byte>, destination: nat, source: nat, length: nat)
    requires destination + length <= mem.Length && source + length <= mem.Length
    modifies mem
    ensures mem[..] == CopiedUp(old(mem[..]), destination, source, length)
  {
    hide CopiedUp;
    ghost var was := mem[..];
    var i := 0;
    UpNothing(was, destination, source);
    while i < length
      invariant 0 <= i <= length && mem[..] == CopiedUp(was, destination, source, i)
    {
      UpNext(was, destination, source, length, i);
      mem[destination + i] := mem[source + i];
      i := i + 1;
    }
  }

  lemma UpNothing(mem: seq<Byte>, destination: nat, source: nat)
    requires destination <= |mem| && source <= |mem|
    ensures CopiedUp(mem, destination, source, 0) == mem
  {
  }

  lemma UpNext(mem: seq<Byte>, destination: nat, source: nat, length: nat, i: nat)
    requires destination + length <= |mem| && source + length <= |mem| && i < length
    ensures var r := CopiedUp(mem, destination, source, i);
            CopiedUp(mem, destination, source, i + 1) == r[destination + i := r[source + i]]
  {
    UpReads(mem, destination, source, length, i, i);
    hide CopiedUp, Origin;
    assert forall k | 0 <= k < |mem| && k != destination + i ::
             UpByte(mem, destination, source, i + 1, k) == UpByte(mem, destination, source, i, k);
  }

  /** After `i` bytes, a source byte is either untouched or was itself delivered one gap earlier. */
  lemma UpReads(mem: seq<Byte>, destination: nat, source: nat, length: nat, i: nat, k: nat)
    requires destination + length <= |mem| && source + length <= |mem| && i <= k < length
    requires source < destination ==> k < i + (destination - source)
    ensures CopiedUp(mem, destination, source, i)[source + k] == mem[Origin(destination, source, k)]
  {
    hide CopiedUp;
    if source < destination <= source + k {
      var before := k - (destination - source);
      assert Origin(destination, source, k) == Origin(destination, source, before);
      assert CopiedUp(mem, destination, source, i)[destination + before] == mem[Origin(destination, source, before)];
      assert source + k == destination + before;
    }
  }

  /** Above the source, the byte is found at the remainder by the distance. */
  lemma {:induction false} OriginIsRemainder(source: nat, gap: nat, k: nat)
    requires gap > 0
    ensures Origin(source + gap, source, k) == source + k % gap
  {
    if k < gap {
      DivModUnique(k, gap, 0, k);
    } else {
      OriginIsRemainder(source, gap, k - gap);
      MulNext((k - gap) / gap, gap);
      DivModUnique(k, gap, (k - gap) / gap + 1, (k - gap) % gap);
    }
  }

  // ----- the loader -----

  /** `readUint32` at an address. */
  method ReadWord(mem: array<Byte>, address: nat) returns (value: nat)
    requires address + WORD <= mem.Length
    ensures value == ReadLittleEndian(mem[address..address + WORD])
  {
    value := Combined(mem[address], mem[address + 1], mem[address + 2], mem[address + 3]);
  }

  ghost predicate Holds(mem: seq<Byte>, at: nat, bytes: seq<Byte>) {
    at + |bytes| <= |mem| && mem[at..at + |bytes|] == bytes
  }

  /** The targets lie in memory, clear of the image and of each other. */
  ghost predicate TargetsOk(size: nat, payload: nat, modules: seq<seq<Byte>>, targets: seq<nat>) {
    && |targets| >= |modules| && payload + |Payload(modules)| <= size
    && (forall i | 0 <= i < |modules| ::
          targets[i] + |modules[i]| <= size && Apart(targets[i], |modules[i]|, payload, |Payload(modules)|))
    && forall i, j | 0 <= i < j < |modules| :: Apart(targets[i], |modules[i]|, targets[j], |modules[j]|)
  }

  /** `loadModules` on an image that `buildImage` made: every module arrives at its own target byte for
      byte, and the image is left as it was. */
  method LoadModules(mem: array<Byte>, payload: nat, targets: seq<nat>, ghost modules: seq<seq<Byte>>)
    requires TargetsOk(mem.Length, payload, modules, targets) && Holds(mem[..], payload, Payload(modules))
    requires |modules| < 0x8000_0000 && forall m <- modules :: |m| < TWO_32
    modifies mem
    ensures forall i | 0 <= i < |modules| :: Holds(mem[..], targets[i], modules[i])
    ensures Holds(mem[..], payload, Payload(modules))
  {
    PayloadStart(mem[..], payload, modules);
    var moduleCount := ReadWord(mem, payload);
    LittleEndianRoundTrip(|modules|);
    assert moduleCount == |modules|;
    var current := payload + WORD;
    var i := 0;
    hide Records, Payload, LittleEndian, ReadLittleEndian;
    while i < moduleCount
      invariant 0 <= i <= |modules| && current == payload + WORD + |Records(modules[..i])|
      invariant Holds(mem[..], payload, Payload(modules))
      invariant forall j | 0 <= j < i :: Holds(mem[..], targets[j], modules[j])
    {
      current := LoadModule(mem, payload, current, targets, i, modules);
      i := i + 1;
    }
  }

  /** `loadModule`: the size, then the copy; the cursor moves past both. */
  method LoadModule(mem: array<Byte>, ghost payload: nat, current: nat, targets: seq<nat>, i: nat,
                    ghost modules: seq<seq<Byte>>)
    returns (next: nat)
    requires TargetsOk(mem.Length, payload, modules, targets) && Holds(mem[..], payload, Payload(modules))
    requires i < |modules| && |modules[i]| < TWO_32 && current == payload + WORD + |Records(modules[..i])|
    modifies mem
    ensures next == payload + WORD + |Records(modules[..i + 1])|
    ensures Holds(mem[..], payload, Payload(modules)) && Holds(mem[..], targets[i], modules[i])
    ensures forall j | 0 <= j < i :: old(Holds(mem[..], targets[j], modules[j])) ==> Holds(mem[..], targets[j], modules[j])
  {
    hide Records, Payload, LittleEndian, ReadLittleEndian, Copied, CopiedUp, TargetsOk, Holds;
    SizeAt(mem[..], payload, current, modules, i);
    var size := ReadWord(mem, current);
    assert mem[..][current..current + WORD] == mem[current..current + WORD];
    assert |mem[..]| == mem.Length;
    LoadEffect(mem[..], payload, current, targets, i, modules);
    MemCopy(mem, targets[i], current + WORD, size);
    next := current + WORD + size;
  }

  lemma SizeAt(mem: seq<Byte>, payload: nat, current: nat, modules: seq<seq<Byte>>, i: nat)
    requires Holds(mem, payload, Payload(modules))
    requires i < |modules| && |modules[i]| < TWO_32 && current == payload + WORD + |Records(modules[..i])|
    ensures current + WORD <= |mem| && ReadLittleEndian(mem[current..current + WORD]) == |modules[i]|
    ensures current + WORD + |modules[i]| == payload + WORD + |Records(modules[..i + 1])|
  {
    RecordAt(mem, payload, modules, i);
    LittleEndianRoundTrip(|modules[i]|);
    hide Records, Payload, LittleEndian, ReadLittleEndian;
  }

  /** The copy delivers module `i` and disturbs neither the image nor what has been delivered. */
  lemma LoadEffect(mem: seq<Byte>, payload: nat, current: nat, targets: seq<nat>, i: nat, modules: seq<seq<Byte>>)
    requires TargetsOk(|mem|, payload, modules, targets) && Holds(mem, payload, Payload(modules))
    requires i < |modules| && current == payload + WORD + |Records(modules[..i])|
    ensures var (n, from) := (|modules[i]|, current + WORD);
            && i < |targets| && targets[i] + n <= |mem| && from + n <= |mem| && !(from < targets[i] < from + n)
            && var r := Copied(mem, targets[i], from, n);
               && Holds(r, payload, Payload(modules)) && Holds(r, targets[i], modules[i])
               && forall j | 0 <= j < i && Holds(mem, targets[j], modules[j]) :: Holds(r, targets[j], modules[j])
  {
    hide Records, Payload, LittleEndian, Copied;
    RecordAt(mem, payload, modules, i);
    TargetClear(|mem|, payload, modules, targets, i);
    CopiedHolds(mem, targets[i], current + WORD, modules[i]);
    var r := Copied(mem, targets[i], current + WORD, |modules[i]|);
    CopiedKeeps(mem, targets[i], current + WORD, |modules[i]|, payload, Payload(modules));
    forall j | 0 <= j < i && Holds(mem, targets[j], modules[j]) ensures Holds(r, targets[j], modules[j]) {
      CopiedKeeps(mem, targets[i], current + WORD, |modules[i]|, targets[j], modules[j]);
    }
  }

  /** An image in memory holds its payload behind the kernel. */
  lemma ImageHoldsPayload(mem: seq<Byte>, base: nat, kernel: seq<Byte>, modules: seq<seq<Byte>>)
    requires Holds(mem, base, kernel + Payload(modules))
    ensures Holds(mem, base, kernel) && Holds(mem, base + |kernel|, Payload(modules))
  {
    TwoParts(mem, base, kernel, Payload(modules));
  }

  method PlaceImage(mem: array<Byte>, base: nat, image: seq<Byte>)
    requires base + |image| <= mem.Length
    modifies mem
    ensures Holds(mem[..], base, image)
  {
    forall k | 0 <= k < |image| {
      mem[base + k] := image[k];
    }
    assert mem[..][base..base + |image|] == image;
  }

  /** From files to running memory: the packer builds the image, the boot loader leaves it at `base`, and
      the kernel loads from behind its own binary. Every file after the kernel then stands at its own
      target, byte for byte. */
  method PackAndLoad(mem: array<Byte>, base: nat, files: seq<seq<Byte>>, targets: seq<nat>)
    requires files != [] && |files| <= 0x8000_0000 && forall f <- files[1..] :: |f| < TWO_32
    requires TargetsOk(mem.Length, base + |files[0]|, files[1..], targets)
    modifies mem
    ensures forall i | 0 <= i < |files| - 1 :: Holds(mem[..], targets[i], files[i + 1])
    ensures Holds(mem[..], base + |files[0]|, Payload(files[1..]))
  {
    hide Records, Payload, LittleEndian;
    var image := BuildImage(files);
    PlaceImage(mem, base, image);
    hide Holds, TargetsOk;
    ImageHoldsPayload(mem[..], base, files[0], files[1..]);
    LoadModules(mem, base + |files[0]|, targets, files[1..]);
    assert forall i | 0 <= i < |files| - 1 :: files[1..][i] == files[i + 1];
  }

  lemma CopiedHolds(mem: seq<Byte>, destination: nat, source: nat, bytes: seq<Byte>)
    requires destination + |bytes| <= |mem| && Holds(mem, source, bytes)
    ensures Holds(Copied(mem, destination, source, |bytes|), destination, bytes)
  {
    var r := Copied(mem, destination, source, |bytes|);
    assert r[destination..destination + |bytes|] == mem[source..source + |bytes|];
  }

  lemma CopiedKeeps(mem: seq<Byte>, destination: nat, source: nat, length: nat, at: nat, bytes: seq<Byte>)
    requires destination + length <= |mem| && source + length <= |mem|
    requires Holds(mem, at, bytes) && Apart(destination, length, at, |bytes|)
    ensures Holds(Copied(mem, destination, source, length), at, bytes)
  {
    var r := Copied(mem, destination, source, length);
    assert r[at..at + |bytes|] == mem[at..at + |bytes|];
  }

  lemma PayloadStart(mem: seq<Byte>, payload: nat, modules: seq<seq<Byte>>)
    requires Holds(mem, payload, Payload(modules))
    ensures payload + WORD <= |mem| && mem[payload..payload + WORD] == LittleEndian(|modules|)
    ensures Records(modules[..0]) == []
  {
    assert mem[payload..payload + WORD] == mem[payload..payload + |Payload(modules)|][..WORD];
    assert Payload(modules)[..WORD] == LittleEndian(|modules|);
  }

  /** The records of the first modules are the beginning of all the records. */
  lemma {:induction false} RecordsPrefix(modules: seq<seq<Byte>>, i: nat)
    requires i <= |modules|
    ensures Records(modules[..i]) <= Records(modules)
    decreases |modules|
  {
    if i == |modules| {
      assert modules[..i] == modules;
    } else {
      var init := modules[..|modules| - 1];
      RecordsPrefix(init, i);
      assert init[..i] == modules[..i];
    }
  }

  /** Where the loader's cursor stands before module `i`: at its size, with its bytes behind. */
  lemma RecordAt(mem: seq<Byte>, payload: nat, modules: seq<seq<Byte>>, i: nat)
    requires Holds(mem, payload, Payload(modules)) && i < |modules|
    ensures var at := payload + WORD + |Records(modules[..i])|;
            && Holds(mem, at, LittleEndian(|modules[i]|)) && Holds(mem, at + WORD, modules[i])
            && at + WORD + |modules[i]| == payload + WORD + |Records(modules[..i + 1])|
            && payload <= at && at + WORD + |modules[i]| <= payload + |Payload(modules)|
  {
    var m := modules[i];
    var head := LittleEndian(|modules|) + Records(modules[..i]);
    RecordIn(modules, i);
    hide Records, LittleEndian, Payload, Holds;
    HoldsInside(mem, payload, Payload(modules), head, LittleEndian(|m|) + m);
    TwoParts(mem, payload + |head|, LittleEndian(|m|), m);
  }

  lemma RecordIn(modules: seq<seq<Byte>>, i: nat)
    requires i < |modules|
    ensures var m := modules[i];
            && LittleEndian(|modules|) + Records(modules[..i]) + (LittleEndian(|m|) + m) <= Payload(modules)
            && |Records(modules[..i + 1])| == |Records(modules[..i])| + WORD + |m|
  {
    var r, m := Records(modules[..i]), modules[i];
    RecordsPrefix(modules, i + 1);
    RecordsPush(modules[..i], m);
    assert modules[..i] + [m] == modules[..i + 1];
    PrefixOfPayload(modules, r + LittleEndian(|m|) + m);
    hide Records, LittleEndian, Payload;
    assert LittleEndian(|modules|) + (r + LittleEndian(|m|) + m)
        == LittleEndian(|modules|) + r + (LittleEndian(|m|) + m);
  }

  lemma TwoParts(mem: seq<Byte>, at: nat, a: seq<Byte>, b: seq<Byte>)
    requires Holds(mem, at, a + b)
    ensures Holds(mem, at, a) && Holds(mem, at + |a|, b)
  {
    HoldsInside(mem, at, a + b, [], a);
    HoldsInside(mem, at, a + b, a, b);
  }

  lemma PrefixOfPayload(modules: seq<seq<Byte>>, r: seq<Byte>)
    requires r <= Records(modules)
    ensures LittleEndian(|modules|) + r <= Payload(modules)
  {
    hide Records, LittleEndian;
  }

  lemma HoldsInside(mem: seq<Byte>, at: nat, all: seq<Byte>, before: seq<Byte>, part: seq<Byte>)
    requires Holds(mem, at, all) && before + part <= all
    ensures Holds(mem, at + |before|, part)
  {
    var n := |before|;
    assert all[..n + |part|] == before + part;
    forall k | 0 <= k < |part| ensures mem[at + n..at + n + |part|][k] == part[k] {
      assert part[k] == (before + part)[n + k] == all[n + k];
      assert all[n + k] == mem[at..at + |all|][n + k];
    }
  }

  lemma TargetClear(size: nat, payload: nat, modules: seq<seq<Byte>>, targets: seq<nat>, i: nat)
    requires TargetsOk(size, payload, modules, targets) && i < |modules|
    ensures targets[i] + |modules[i]| <= size && Apart(targets[i], |modules[i]|, payload, |Payload(modules)|)
    ensures forall j | 0 <= j < i :: Apart(targets[i], |modules[i]|, targets[j], |modules[j]|)
  {
    hide Payload;
    forall j | 0 <= j < i ensures Apart(targets[i], |modules[i]|, targets[j], |modules[j]|) {
      assert Apart(targets[j], |modules[j]|, targets[i], |modules[i]|);
    }
  }
}
