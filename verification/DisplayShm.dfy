/**
  The display segment: one program writes the hardware it found at fixed
  offsets, another reads it back.
*/
module DisplayShm {
  import opened Basics
  import opened Bytes

  const SHM_MAGIC: U32 := 0x5359424C
  const SHM_VERSION: U32 := 1
  const MAX_CONNECTORS: nat := 8
  const MAX_MODES: nat := 64
  const HEADER_SIZE: nat := 64
  const GPU_ENTRY_SIZE: nat := 256
  const CONNECTOR_HEADER_SIZE: nat := 128
  const MODE_ENTRY_SIZE: nat := 16
  const CONNECTOR_ENTRY_SIZE: nat := CONNECTOR_HEADER_SIZE + MAX_MODES * MODE_ENTRY_SIZE
  const SHM_SIZE: nat := 16384
  const EDID_MAX: nat := 128
  const NO_MODE: U32 := 0xFFFF_FFFF
  const NVIDIA: U32 := 0x10DE

  // ---- what is written ----

  datatype Gpu = Gpu(vendor: U32, device: U32, subsysVendor: U32, subsysDevice: U32, revision: U32,
                     driver: seq<Byte>, busId: seq<Byte>, name: seq<Byte>, vram: U64)

  datatype Mode = Mode(width: U32, height: U32, refresh: U32, flags: U32)

  datatype Connector = Connector(name: seq<Byte>, id: U32, connected: bool, kind: U32, kindId: U32,
                                 mmWidth: U32, mmHeight: U32, edid: seq<Byte>, modes: seq<Mode>,
                                 current: Option<Mode>)

  datatype Hardware = Hardware(gpus: seq<Gpu>, connectors: seq<Connector>)

  /** The environment variables the writer looks at. */
  datatype Choice = ChooseX11 | ChooseWayland | Unset
  datatype Environment = Environment(wayland: bool, x11: bool, choice: Choice)

  function Session(env: Environment): U32 {
    if env.wayland then 2 else if env.x11 then 1 else 0
  }

  function DriverChoice(env: Environment, hw: Hardware): Byte {
    match env.choice
    case ChooseX11 => 1
    case ChooseWayland => 2
    case Unset =>
      if hw.gpus != [] && hw.gpus[0].vendor == NVIDIA then 1
      else if Session(env) == 1 then 1
      else if Session(env) == 2 then 2
      else 1
  }

  function Cut<T>(s: seq<T>, n: nat): (r: seq<T>)
    ensures |r| == Min(|s|, n)
  {
    s[..Min(|s|, n)]
  }

  function Connected(cs: seq<Connector>): seq<Connector> {
    if cs == [] then []
    else if cs[0].connected then [cs[0]] + Connected(cs[1..])
    else Connected(cs[1..])
  }

  predicate SameMode(a: Mode, b: Mode) {
    a.width == b.width && a.height == b.height && a.refresh == b.refresh
  }

  /** The first mode with the given resolution and rate. */
  function Position(modes: seq<Mode>, m: Mode): (r: Option<nat>)
    ensures r.Some? ==> r.value < |modes| && SameMode(modes[r.value], m)
    ensures r.Some? ==> forall i :: 0 <= i < r.value ==> !SameMode(modes[i], m)
    ensures r.None? ==> forall i :: 0 <= i < |modes| ==> !SameMode(modes[i], m)
  {
    if modes == [] then None
    else if SameMode(modes[0], m) then Some(0)
    else
      match Position(modes[1..], m)
      case None =>
        assert forall i :: 1 <= i < |modes| ==> modes[i] == modes[1..][i - 1];
        None
      case Some(k) =>
        assert forall i :: 1 <= i < |modes| ==> modes[i] == modes[1..][i - 1];
        Some(k + 1)
  }

  /** `current_mode_index` as 32 bits, all ones if there is none. */
  function CurrentIndex(c: Connector): U32 {
    if c.current.None? then NO_MODE
    else
      match Position(c.modes, c.current.value)
      case None => NO_MODE
      case Some(k) => k % U32_LIMIT
  }

  function ConnectorBase(i: nat): nat {
    HEADER_SIZE + GPU_ENTRY_SIZE + i * CONNECTOR_ENTRY_SIZE
  }

  /** Entries lie inside the segment and do not overlap. */
  lemma EntriesAreApart(i: nat, j: nat)
    requires i < MAX_CONNECTORS && j < MAX_CONNECTORS
    ensures HEADER_SIZE + GPU_ENTRY_SIZE <= ConnectorBase(i) && ConnectorBase(i) + CONNECTOR_ENTRY_SIZE <= SHM_SIZE
    ensures i < j ==> ConnectorBase(i) + CONNECTOR_ENTRY_SIZE <= ConnectorBase(j)
  {
  }

  function ModeBytes(m: Mode): (b: seq<Byte>)
    ensures |b| == MODE_ENTRY_SIZE
  {
    U32Bytes(m.width) + U32Bytes(m.height) + U32Bytes(m.refresh) + U32Bytes(m.flags)
  }

  function ModeCount(c: Connector): nat {
    Min(|c.modes|, MAX_MODES)
  }

  function EdidLen(c: Connector): nat {
    Min(|c.edid|, EDID_MAX)
  }

  // ---- what the bytes say afterwards ----

  /** A string field: the bytes that fit, then a NUL. */
  ghost predicate StringIs(mem: seq<Byte>, off: nat, s: seq<Byte>, max: nat) {
    && off + max < |mem|
    && (forall k :: 0 <= k < Min(|s|, max) ==> mem[off + k] == s[k])
    && mem[off + Min(|s|, max)] == 0
  }

  ghost predicate GpuIs(mem: seq<Byte>, g: Gpu)
    requires |mem| == SHM_SIZE
  {
    && U32At(mem, 64) == g.vendor && U32At(mem, 68) == g.device && U32At(mem, 72) == g.subsysVendor
    && U32At(mem, 76) == g.subsysDevice && U32At(mem, 80) == g.revision
    && StringIs(mem, 84, g.driver, 63) && StringIs(mem, 148, g.busId, 63) && StringIs(mem, 212, g.name, 63)
    && U64At(mem, 276) == g.vram
  }

  ghost predicate NumbersAre(mem: seq<Byte>, base: nat, c: Connector)
    requires base + 32 <= |mem|
  {
    && U32At(mem, base) == c.id && U32At(mem, base + 4) == c.kind && U32At(mem, base + 8) == c.kindId
    && U32At(mem, base + 12) == c.mmWidth && U32At(mem, base + 16) == c.mmHeight
    && U32At(mem, base + 20) == ModeCount(c) && U32At(mem, base + 24) == CurrentIndex(c)
    && U32At(mem, base + 28) == EdidLen(c)
  }

  ghost predicate ModeIs(mem: seq<Byte>, off: nat, m: Mode) {
    off + MODE_ENTRY_SIZE <= |mem| && mem[off..off + MODE_ENTRY_SIZE] == ModeBytes(m)
  }

  function ModeOffset(base: nat, j: nat): nat {
    base + CONNECTOR_HEADER_SIZE + j * MODE_ENTRY_SIZE
  }

  /** EDID byte `k` shares its place with a mode. */
  predicate Overwritten(c: Connector, k: nat) {
    64 <= k < 64 + ModeCount(c) * MODE_ENTRY_SIZE
  }

  ghost predicate EdidIs(mem: seq<Byte>, base: nat, c: Connector)
    requires base + CONNECTOR_ENTRY_SIZE <= |mem|
  {
    forall k: nat :: k < EdidLen(c) && !Overwritten(c, k) ==> mem[base + 64 + k] == c.edid[k]
  }

  ghost predicate ConnectorIs(mem: seq<Byte>, base: nat, c: Connector)
    requires base + CONNECTOR_ENTRY_SIZE <= |mem|
  {
    && NumbersAre(mem, base, c)
    && StringIs(mem, base + 32, c.name, 31)
    && EdidIs(mem, base, c)
    && forall j :: 0 <= j < ModeCount(c) ==> ModeIs(mem, ModeOffset(base, j), c.modes[j])
  }

  lemma ConnectorStays(a: seq<Byte>, b: seq<Byte>, base: nat, c: Connector)
    requires base + CONNECTOR_ENTRY_SIZE <= |a| && ConnectorIs(a, base, c)
    requires SameRange(b, a, base, base + CONNECTOR_ENTRY_SIZE)
    ensures ConnectorIs(b, base, c)
  {
    forall j | 0 <= j < ModeCount(c) ensures ModeIs(b, ModeOffset(base, j), c.modes[j]) {
      assert ModeIs(a, ModeOffset(base, j), c.modes[j]);
      var off := ModeOffset(base, j);
      assert b[off..off + MODE_ENTRY_SIZE] == a[off..off + MODE_ENTRY_SIZE];
    }
  }

  // ---- writing ----

  ghost predicate ZeroRange(mem: seq<Byte>, lo: nat, hi: nat) {
    hi <= |mem| && forall k :: lo <= k < hi ==> mem[k] == 0
  }

  /** Copy at most `max` bytes; the NUL is already there. */
  method WriteString(before: seq<Byte>, off: nat, s: seq<Byte>, max: nat) returns (mem: seq<Byte>)
    requires off + max < |before| && ZeroRange(before, off, off + max + 1)
    ensures |mem| == |before| && StringIs(mem, off, s, max)
    ensures SameRange(mem, before, 0, off) && SameRange(mem, before, off + max + 1, |before|)
  {
    StoredRanges(before, off, Cut(s, max));
    mem := Stored(before, off, Cut(s, max));
  }

  method WriteGpu(before: seq<Byte>, g: Gpu) returns (mem: seq<Byte>)
    requires |before| == SHM_SIZE && ZeroRange(before, HEADER_SIZE, HEADER_SIZE + GPU_ENTRY_SIZE)
    ensures |mem| == SHM_SIZE && GpuIs(mem, g)
    ensures SameRange(mem, before, 0, HEADER_SIZE) && SameRange(mem, before, HEADER_SIZE + GPU_ENTRY_SIZE, SHM_SIZE)
  {
    mem := PutU32(before, 64, g.vendor);
    mem := PutU32(mem, 68, g.device);
    mem := PutU32(mem, 72, g.subsysVendor);
    mem := PutU32(mem, 76, g.subsysDevice);
    mem := PutU32(mem, 80, g.revision);
    mem := WriteString(mem, 84, g.driver, 63);
    mem := WriteString(mem, 148, g.busId, 63);
    mem := WriteString(mem, 212, g.name, 63);
    StoredRanges(mem, 276, U64Bytes(g.vram));
    mem := Stored(mem, 276, U64Bytes(g.vram));
    U64AtBytes(mem, 276, g.vram);
  }

  method WriteNumbers(before: seq<Byte>, base: nat, c: Connector) returns (mem: seq<Byte>)
    requires base + CONNECTOR_ENTRY_SIZE <= |before|
    ensures |mem| == |before| && NumbersAre(mem, base, c)
    ensures SameRange(mem, before, 0, base) && SameRange(mem, before, base + 32, |before|)
  {
    mem := PutU32(before, base, c.id);
    mem := PutU32(mem, base + 4, c.kind);
    mem := PutU32(mem, base + 8, c.kindId);
    mem := PutU32(mem, base + 12, c.mmWidth);
    mem := PutU32(mem, base + 16, c.mmHeight);
    mem := PutU32(mem, base + 20, ModeCount(c));
    mem := PutU32(mem, base + 24, CurrentIndex(c));
    mem := PutU32(mem, base + 28, EdidLen(c));
  }

  lemma ModeStays(a: seq<Byte>, b: seq<Byte>, off: nat, m: Mode)
    requires ModeIs(a, off, m) && SameRange(b, a, off, off + MODE_ENTRY_SIZE)
    ensures ModeIs(b, off, m)
  {
  }

  method WriteModes(before: seq<Byte>, base: nat, c: Connector) returns (mem: seq<Byte>)
    requires base + CONNECTOR_ENTRY_SIZE <= |before|
    ensures |mem| == |before|
    ensures forall j :: 0 <= j < ModeCount(c) ==> ModeIs(mem, ModeOffset(base, j), c.modes[j])
    ensures SameRange(mem, before, 0, base + CONNECTOR_HEADER_SIZE)
    ensures SameRange(mem, before, ModeOffset(base, ModeCount(c)), |before|)
  {
    mem := before;
    var j := 0;
    while j < ModeCount(c)
      invariant j <= ModeCount(c) && |mem| == |before|
      invariant forall i :: 0 <= i < j ==> ModeIs(mem, ModeOffset(base, i), c.modes[i])
      invariant SameRange(mem, before, 0, base + CONNECTOR_HEADER_SIZE)
      invariant SameRange(mem, before, ModeOffset(base, j), |before|)
    {
      ghost var earlier := mem;
      StoredRanges(mem, ModeOffset(base, j), ModeBytes(c.modes[j]));
      mem := Stored(mem, ModeOffset(base, j), ModeBytes(c.modes[j]));
      forall i | 0 <= i < j ensures ModeIs(mem, ModeOffset(base, i), c.modes[i]) {
        ModeStays(earlier, mem, ModeOffset(base, i), c.modes[i]);
      }
      j := j + 1;
    }
  }

  /** Numbers, name and EDID, then the modes over whatever the EDID left at
      offset 128. */
  method WriteConnector(before: seq<Byte>, base: nat, c: Connector) returns (mem: seq<Byte>)
    requires base + CONNECTOR_ENTRY_SIZE <= |before|
    requires ZeroRange(before, base, base + CONNECTOR_ENTRY_SIZE)
    ensures |mem| == |before| && ConnectorIs(mem, base, c)
    ensures SameRange(mem, before, 0, base) && SameRange(mem, before, base + CONNECTOR_ENTRY_SIZE, |before|)
  {
    var numbered := WriteNumbers(before, base, c);
    var named := WriteString(numbered, base + 32, c.name, 31);
    StoredRanges(named, base + 64, Cut(c.edid, EDID_MAX));
    var described := Stored(named, base + 64, Cut(c.edid, EDID_MAX));
    assert forall k: nat :: k < EdidLen(c) ==> described[base + 64 + k] == c.edid[k];
    mem := WriteModes(described, base, c);
  }

  /** The connectors that make it into the segment. */
  function Shown(hw: Hardware): (cs: seq<Connector>)
    ensures |cs| <= MAX_CONNECTORS
  {
    Cut(Connected(hw.connectors), MAX_CONNECTORS)
  }

  ghost predicate HeaderIs(mem: seq<Byte>, hw: Hardware, env: Environment)
    requires |mem| == SHM_SIZE
  {
    && U32At(mem, 0) == SHM_MAGIC && U32At(mem, 4) == SHM_VERSION
    && U32At(mem, 8) == Min(|hw.gpus|, 1) && U32At(mem, 12) == |Shown(hw)|
    && mem[20] == DriverChoice(env, hw) && U32At(mem, 24) == Session(env)
  }

  method WriteHeader(before: seq<Byte>, hw: Hardware, env: Environment) returns (mem: seq<Byte>)
    requires |before| == SHM_SIZE
    ensures |mem| == SHM_SIZE && HeaderIs(mem, hw, env)
    ensures SameRange(mem, before, HEADER_SIZE, SHM_SIZE)
  {
    mem := PutU32(before, 0, SHM_MAGIC);
    mem := PutU32(mem, 4, SHM_VERSION);
    mem := PutU32(mem, 8, Min(|hw.gpus|, 1));
    mem := PutU32(mem, 12, |Shown(hw)|);
    mem := PutU32(mem, 24, Session(env));
    mem := mem[20 := DriverChoice(env, hw)];
  }

  /** The first `n` connector entries hold the first `n` connectors. */
  ghost predicate EntriesAre(mem: seq<Byte>, cs: seq<Connector>, n: nat)
    requires |mem| == SHM_SIZE && n <= |cs| <= MAX_CONNECTORS
  {
    forall i :: 0 <= i < n ==> EntryIs(mem, cs, i)
  }

  ghost predicate EntryIs(mem: seq<Byte>, cs: seq<Connector>, i: nat)
    requires |mem| == SHM_SIZE && i < |cs| <= MAX_CONNECTORS
  {
    ConnectorIs(mem, ConnectorBase(i), cs[i])
  }

  lemma EntryInside(a: seq<Byte>, b: seq<Byte>, i: nat, n: nat)
    requires |a| == SHM_SIZE && i < n <= MAX_CONNECTORS
    requires SameRange(b, a, ConnectorBase(0), ConnectorBase(n))
    ensures SameRange(b, a, ConnectorBase(i), ConnectorBase(i) + CONNECTOR_ENTRY_SIZE)
  {
  }

  lemma EntriesStay(a: seq<Byte>, b: seq<Byte>, cs: seq<Connector>, n: nat)
    requires |a| == SHM_SIZE && n <= |cs| <= MAX_CONNECTORS && EntriesAre(a, cs, n)
    requires SameRange(b, a, ConnectorBase(0), ConnectorBase(n))
    ensures EntriesAre(b, cs, n)
  {
    forall i | 0 <= i < n ensures EntryIs(b, cs, i) {
      assert EntryIs(a, cs, i);
      EntryInside(a, b, i, n);
      EntryStays(a, b, cs, i);
    }
  }

  lemma EntryStays(a: seq<Byte>, b: seq<Byte>, cs: seq<Connector>, i: nat)
    requires |a| == SHM_SIZE && i < |cs| <= MAX_CONNECTORS && EntryIs(a, cs, i)
    requires SameRange(b, a, ConnectorBase(i), ConnectorBase(i) + CONNECTOR_ENTRY_SIZE)
    ensures EntryIs(b, cs, i)
  {
    ConnectorStays(a, b, ConnectorBase(i), cs[i]);
  }

  /** The whole segment after one write. */
  ghost predicate Written(mem: seq<Byte>, hw: Hardware, env: Environment) {
    && |mem| == SHM_SIZE && HeaderIs(mem, hw, env)
    && (hw.gpus != [] ==> GpuIs(mem, hw.gpus[0]))
    && EntriesAre(mem, Shown(hw), |Shown(hw)|)
  }

  /** One more entry, the ones before it kept. */
  method AddConnector(before: seq<Byte>, cs: seq<Connector>, i: nat) returns (mem: seq<Byte>)
    requires |before| == SHM_SIZE && i < |cs| <= MAX_CONNECTORS
    requires ZeroRange(before, ConnectorBase(i), SHM_SIZE) && EntriesAre(before, cs, i)
    ensures |mem| == SHM_SIZE && EntriesAre(mem, cs, i + 1)
    ensures SameRange(mem, before, 0, ConnectorBase(i)) && SameRange(mem, before, ConnectorBase(i + 1), SHM_SIZE)
  {
    EntriesAreApart(i, i);
    mem := WriteConnector(before, ConnectorBase(i), cs[i]);
    EntriesStay(before, mem, cs, i);
    assert EntryIs(mem, cs, i);
  }

  /** The loop over connected connectors. */
  method WriteConnectors(before: seq<Byte>, cs: seq<Connector>) returns (mem: seq<Byte>)
    requires |before| == SHM_SIZE && |cs| <= MAX_CONNECTORS
    requires ZeroRange(before, ConnectorBase(0), SHM_SIZE)
    ensures |mem| == SHM_SIZE && SameRange(mem, before, 0, ConnectorBase(0))
    ensures EntriesAre(mem, cs, |cs|)
  {
    mem := before;
    var i := 0;
    while i < |cs|
      invariant i <= |cs| && |mem| == SHM_SIZE
      invariant SameRange(mem, before, 0, ConnectorBase(0)) && ZeroRange(mem, ConnectorBase(i), SHM_SIZE)
      invariant EntriesAre(mem, cs, i)
    {
      mem := AddConnector(mem, cs, i);
      i := i + 1;
    }
  }

  lemma SegmentStays(a: seq<Byte>, b: seq<Byte>, hw: Hardware, env: Environment)
    requires Written(a, hw, env) && SameRange(b, a, 0, 16) && SameRange(b, a, 20, SHM_SIZE)
    ensures Written(b, hw, env)
  {
    EntriesAreApart(0, 0);
    EntriesStay(a, b, Shown(hw), |Shown(hw)|);
  }

  /** Header and GPU on the zeroed segment, the sequence counter odd. */
  method WriteFront(hw: Hardware, env: Environment) returns (mem: seq<Byte>)
    ensures |mem| == SHM_SIZE && HeaderIs(mem, hw, env)
    ensures hw.gpus != [] ==> GpuIs(mem, hw.gpus[0])
    ensures ZeroRange(mem, ConnectorBase(0), SHM_SIZE) && U32At(mem, 16) == 1
  {
    mem := seq(SHM_SIZE, i => 0);
    mem := WriteHeader(mem, hw, env);
    mem := PutU32(mem, 16, 1);
    if hw.gpus != [] {
      mem := WriteGpu(mem, hw.gpus[0]);
    }
  }

  /** `write_hardware` on the zeroed segment; the counter ends even. */
  method WriteHardware(hw: Hardware, env: Environment) returns (mem: seq<Byte>)
    ensures Written(mem, hw, env) && U32At(mem, 16) == 2
  {
    var front := WriteFront(hw, env);
    var filled := WriteConnectors(front, Shown(hw));
    FrontStays(front, filled, hw, env);
    mem := PutU32(filled, 16, 2);
    SegmentStays(filled, mem, hw, env);
  }

  lemma FrontStays(a: seq<Byte>, b: seq<Byte>, hw: Hardware, env: Environment)
    requires |a| == SHM_SIZE && HeaderIs(a, hw, env) && (hw.gpus != [] ==> GpuIs(a, hw.gpus[0]))
    requires SameRange(b, a, 0, ConnectorBase(0))
    ensures HeaderIs(b, hw, env) && (hw.gpus != [] ==> GpuIs(b, hw.gpus[0]))
  {
  }

  // ---- reading ----

  datatype GpuData = GpuData(vendor: U32, device: U32, subsysVendor: U32, subsysDevice: U32, revision: U32,
                             driver: seq<Byte>, busId: seq<Byte>, gpuName: seq<Byte>, vramBytes: U64)

  datatype ModeData = ModeData(width: U32, height: U32, refresh: U32)

  datatype ConnectorData = ConnectorData(name: seq<Byte>, kind: U32, mmWidth: U32, mmHeight: U32,
                                         edid: seq<Byte>, modes: seq<ModeData>, currentIndex: U32,
                                         current: ModeData)

  datatype DisplayData = DisplayData(gpu: GpuData, connectors: seq<ConnectorData>, driverChoice: Byte, session: U32)

  /** The index of the first NUL, or the length. */
  function NulAt(s: seq<Byte>): (n: nat)
    ensures n <= |s| && (n < |s| ==> s[n] == 0)
    ensures forall i :: 0 <= i < n ==> s[i] != 0
  {
    if s == [] || s[0] == 0 then 0
    else
      assert forall i :: 1 <= i < |s| ==> s[i] == s[1..][i - 1];
      1 + NulAt(s[1..])
  }

  function UpToNul(s: seq<Byte>): seq<Byte> {
    s[..NulAt(s)]
  }

  function CstrAt(mem: seq<Byte>, off: nat, max: nat): seq<Byte>
    requires off + max <= |mem|
  {
    UpToNul(mem[off..off + max])
  }

  /** The scan of `read_cstr`. */
  method ReadCstr(mem: seq<Byte>, off: nat, max: nat) returns (s: seq<Byte>)
    requires off + max <= |mem|
    ensures s == CstrAt(mem, off, max)
  {
    ghost var window := mem[off..off + max];
    var len := 0;
    while len < max && mem[off + len] != 0
      invariant len <= max
      invariant forall i :: 0 <= i < len ==> window[i] != 0
    {
      assert window[len] == mem[off + len];
      len := len + 1;
    }
    assert len < max ==> window[len] == mem[off + len];
    assert NulAt(window) == len;
    s := mem[off..off + len];
    assert s == window[..len];
  }

  function ModeAt(mem: seq<Byte>, off: nat): ModeData
    requires off + MODE_ENTRY_SIZE <= |mem|
  {
    ModeData(U32At(mem, off), U32At(mem, off + 4), U32At(mem, off + 8))
  }

  function ModesAt(mem: seq<Byte>, base: nat, n: nat): (ms: seq<ModeData>)
    requires base + CONNECTOR_ENTRY_SIZE <= |mem| && n <= MAX_MODES
    ensures |ms| == n && forall j :: 0 <= j < n ==> ms[j] == ModeAt(mem, ModeOffset(base, j))
  {
    seq(n, j requires 0 <= j < n => ModeAt(mem, ModeOffset(base, j)))
  }

  const DEFAULT_MODE := ModeData(1920, 1080, 60)

  /** The indexed mode, else the first, else a default. */
  function CurrentMode(modes: seq<ModeData>, index: U32): ModeData {
    if index < |modes| then modes[index]
    else if modes != [] then modes[0]
    else DEFAULT_MODE
  }

  function ConnectorAt(mem: seq<Byte>, base: nat): ConnectorData
    requires base + CONNECTOR_ENTRY_SIZE <= |mem|
  {
    var modes := ModesAt(mem, base, Min(U32At(mem, base + 20), MAX_MODES));
    ConnectorData(
      CstrAt(mem, base + 32, 31), U32At(mem, base + 4), U32At(mem, base + 12), U32At(mem, base + 16),
      mem[base + 64..base + 64 + Min(U32At(mem, base + 28), EDID_MAX)],
      modes, U32At(mem, base + 24), CurrentMode(modes, U32At(mem, base + 24)))
  }

  function GpuAt(mem: seq<Byte>): GpuData
    requires |mem| == SHM_SIZE
  {
    GpuData(U32At(mem, 64), U32At(mem, 68), U32At(mem, 72), U32At(mem, 76), U32At(mem, 80),
            CstrAt(mem, 84, 63), CstrAt(mem, 148, 63), CstrAt(mem, 212, 63), U64At(mem, 276))
  }

  function ConnectorsAt(mem: seq<Byte>, n: nat): (cs: seq<ConnectorData>)
    requires |mem| == SHM_SIZE && n <= MAX_CONNECTORS
    ensures |cs| == n && forall i :: 0 <= i < n ==> cs[i] == ConnectorAt(mem, ConnectorBase(i))
  {
    seq(n, i requires 0 <= i < n => ConnectorAt(mem, ConnectorBase(i)))
  }

  function Parse(mem: seq<Byte>): Option<DisplayData>
    requires |mem| == SHM_SIZE
  {
    if U32At(mem, 0) != SHM_MAGIC || U32At(mem, 8) == 0 then None
    else Some(DisplayData(GpuAt(mem), ConnectorsAt(mem, Min(U32At(mem, 12), MAX_CONNECTORS)), mem[20], U32At(mem, 24)))
  }

  method ParseConnector(mem: seq<Byte>, base: nat) returns (c: ConnectorData)
    requires base + CONNECTOR_ENTRY_SIZE <= |mem|
    ensures c == ConnectorAt(mem, base)
  {
    var count := Min(U32At(mem, base + 20), MAX_MODES);
    var index := U32At(mem, base + 24);
    var edidLen := Min(U32At(mem, base + 28), EDID_MAX);
    var name := ReadCstr(mem, base + 32, 31);
    var modes: seq<ModeData> := [];
    var j := 0;
    while j < count
      invariant j <= count && modes == ModesAt(mem, base, j)
    {
      modes := modes + [ModeAt(mem, ModeOffset(base, j))];
      j := j + 1;
    }
    var current;
    if index < |modes| {
      current := modes[index];
    } else if modes != [] {
      current := modes[0];
    } else {
      current := ModeData(1920, 1080, 60);
    }
    c := ConnectorData(name, U32At(mem, base + 4), U32At(mem, base + 12), U32At(mem, base + 16),
                       mem[base + 64..base + 64 + edidLen], modes, index, current);
  }

  lemma OneMoreConnector(mem: seq<Byte>, i: nat)
    requires |mem| == SHM_SIZE && i < MAX_CONNECTORS
    ensures ConnectorBase(i) + CONNECTOR_ENTRY_SIZE <= SHM_SIZE
    ensures ConnectorsAt(mem, i) + [ConnectorAt(mem, ConnectorBase(i))] == ConnectorsAt(mem, i + 1)
  {
  }

  method ParseGpu(mem: seq<Byte>) returns (gpu: GpuData)
    requires |mem| == SHM_SIZE
    ensures gpu == GpuAt(mem)
  {
    var driver := ReadCstr(mem, 84, 63);
    var bus := ReadCstr(mem, 148, 63);
    var name := ReadCstr(mem, 212, 63);
    gpu := GpuData(U32At(mem, 64), U32At(mem, 68), U32At(mem, 72), U32At(mem, 76), U32At(mem, 80),
                   driver, bus, name, U64At(mem, 276));
  }

  method ParseShm(mem: seq<Byte>) returns (r: Option<DisplayData>)
    requires |mem| == SHM_SIZE
    ensures r == Parse(mem)
  {
    if U32At(mem, 0) != SHM_MAGIC {
      return None;
    }
    if U32At(mem, 8) == 0 {
      return None;
    }
    var gpu := ParseGpu(mem);
    var count := Min(U32At(mem, 12), MAX_CONNECTORS);
    var connectors: seq<ConnectorData> := [];
    var i := 0;
    while i < count
      invariant i <= count && connectors == ConnectorsAt(mem, i)
    {
      OneMoreConnector(mem, i);
      var c := ParseConnector(mem, ConnectorBase(i));
      connectors := connectors + [c];
      i := i + 1;
    }
    r := Some(DisplayData(gpu, connectors, mem[20], U32At(mem, 24)));
  }

  // ---- round trip ----

  function ToModeData(m: Mode): ModeData {
    ModeData(m.width, m.height, m.refresh)
  }

  function ModesBack(c: Connector): (ms: seq<ModeData>)
    ensures |ms| == ModeCount(c) && forall j :: 0 <= j < |ms| ==> ms[j] == ToModeData(c.modes[j])
  {
    seq(ModeCount(c), j requires 0 <= j < ModeCount(c) => ToModeData(c.modes[j]))
  }

  /** The mode byte that lands on EDID byte `k`. */
  function ModeByte(c: Connector, k: nat): Byte
    requires Overwritten(c, k)
  {
    ModeBytes(c.modes[(k - 64) / MODE_ENTRY_SIZE])[(k - 64) % MODE_ENTRY_SIZE]
  }

  /** The EDID that comes back: from byte 64 on, mode bytes where there are
      modes. */
  function EdidByteBack(c: Connector, k: nat): Byte
    requires k < EdidLen(c)
  {
    if Overwritten(c, k) then ModeByte(c, k) else c.edid[k]
  }

  function EdidBack(c: Connector): (e: seq<Byte>)
    ensures |e| == EdidLen(c) && forall k :: 0 <= k < |e| ==> e[k] == EdidByteBack(c, k)
  {
    seq(EdidLen(c), k requires 0 <= k < EdidLen(c) => EdidByteBack(c, k))
  }

  /** What the reader makes of a connector. */
  function ConnectorBack(c: Connector): ConnectorData
  {
    ConnectorData(UpToNul(Cut(c.name, 31)), c.kind, c.mmWidth, c.mmHeight, EdidBack(c), ModesBack(c),
                  CurrentIndex(c), CurrentMode(ModesBack(c), CurrentIndex(c)))
  }

  function GpuBack(g: Gpu): GpuData {
    GpuData(g.vendor, g.device, g.subsysVendor, g.subsysDevice, g.revision,
            UpToNul(Cut(g.driver, 63)), UpToNul(Cut(g.busId, 63)), UpToNul(Cut(g.name, 63)), g.vram)
  }

  lemma StringComesBack(mem: seq<Byte>, off: nat, s: seq<Byte>, max: nat)
    requires StringIs(mem, off, s, max)
    ensures CstrAt(mem, off, max) == UpToNul(Cut(s, max))
  {
    var window, cut := mem[off..off + max], Cut(s, max);
    assert forall k :: 0 <= k < |cut| ==> window[k] == cut[k];
    assert |cut| < max ==> window[|cut|] == 0;
    assert NulAt(window) == NulAt(cut);
  }

  lemma ModeComesBack(mem: seq<Byte>, off: nat, m: Mode)
    requires ModeIs(mem, off, m)
    ensures ModeAt(mem, off) == ToModeData(m)
  {
    var b := mem[off..off + MODE_ENTRY_SIZE];
    assert b[0..4] == U32Bytes(m.width) && b[4..8] == U32Bytes(m.height) && b[8..12] == U32Bytes(m.refresh);
    U32AtBytes(b, 0, m.width);
    U32AtBytes(b, 4, m.height);
    U32AtBytes(b, 8, m.refresh);
    assert U32At(mem, off) == U32At(b, 0) && U32At(mem, off + 4) == U32At(b, 4) && U32At(mem, off + 8) == U32At(b, 8);
  }

  lemma EdidByteComesBack(mem: seq<Byte>, base: nat, c: Connector, k: nat)
    requires base + CONNECTOR_ENTRY_SIZE <= |mem| && ConnectorIs(mem, base, c)
    requires k < EdidLen(c)
    ensures mem[base + 64 + k] == EdidByteBack(c, k)
  {
  }

  lemma ConnectorComesBack(mem: seq<Byte>, base: nat, c: Connector)
    requires base + CONNECTOR_ENTRY_SIZE <= |mem| && ConnectorIs(mem, base, c)
    ensures ConnectorAt(mem, base) == ConnectorBack(c)
  {
    StringComesBack(mem, base + 32, c.name, 31);
    forall j | 0 <= j < ModeCount(c) ensures ModeAt(mem, ModeOffset(base, j)) == ToModeData(c.modes[j]) {
      ModeComesBack(mem, ModeOffset(base, j), c.modes[j]);
    }
    assert ModesAt(mem, base, ModeCount(c)) == ModesBack(c);
    var edid := mem[base + 64..base + 64 + EdidLen(c)];
    forall k | 0 <= k < EdidLen(c) ensures edid[k] == EdidBack(c)[k] {
      EdidByteComesBack(mem, base, c, k);
    }
    assert edid == EdidBack(c);
  }

  lemma GpuComesBack(mem: seq<Byte>, g: Gpu)
    requires |mem| == SHM_SIZE && GpuIs(mem, g)
    ensures GpuAt(mem) == GpuBack(g)
  {
    StringComesBack(mem, 84, g.driver, 63);
    StringComesBack(mem, 148, g.busId, 63);
    StringComesBack(mem, 212, g.name, 63);
  }

  function ConnectorsBack(cs: seq<Connector>): (r: seq<ConnectorData>)
    ensures |r| == |cs| && forall i :: 0 <= i < |cs| ==> r[i] == ConnectorBack(cs[i])
  {
    seq(|cs|, i requires 0 <= i < |cs| => ConnectorBack(cs[i]))
  }

  lemma EntryComesBack(mem: seq<Byte>, cs: seq<Connector>, i: nat)
    requires |mem| == SHM_SIZE && i < |cs| <= MAX_CONNECTORS && EntryIs(mem, cs, i)
    ensures ConnectorAt(mem, ConnectorBase(i)) == ConnectorBack(cs[i])
  {
    EntriesAreApart(i, i);
    ConnectorComesBack(mem, ConnectorBase(i), cs[i]);
  }

  lemma ConnectorsComeBack(mem: seq<Byte>, cs: seq<Connector>)
    requires |mem| == SHM_SIZE && |cs| <= MAX_CONNECTORS && EntriesAre(mem, cs, |cs|)
    ensures ConnectorsAt(mem, |cs|) == ConnectorsBack(cs)
  {
    var read, back := ConnectorsAt(mem, |cs|), ConnectorsBack(cs);
    forall i | 0 <= i < |cs| ensures read[i] == back[i] {
      EntryComesBack(mem, cs, i);
    }
  }

  /** Reading what was written: nothing without a GPU; otherwise the first GPU,
      the first eight connected connectors in order, the driver choice and the
      session. */
  lemma DisplayRoundTrip(mem: seq<Byte>, hw: Hardware, env: Environment)
    requires Written(mem, hw, env)
    ensures Parse(mem) ==
      if hw.gpus == [] then None
      else Some(DisplayData(GpuBack(hw.gpus[0]), ConnectorsBack(Shown(hw)), DriverChoice(env, hw), Session(env)))
  {
    ConnectorsComeBack(mem, Shown(hw));
    if hw.gpus != [] {
      GpuComesBack(mem, hw.gpus[0]);
    }
  }

  /** NUL-free strings come back cut to their field. */
  lemma NulFreeComesBack(s: seq<Byte>, max: nat)
    requires 0 !in s
    ensures UpToNul(Cut(s, max)) == Cut(s, max)
  {
  }

  /** The current mode comes back if and only if it is one of the first 64, or
      there are no modes and it happens to be the reader's default. */
  lemma CurrentModeComesBackIff(c: Connector)
    requires c.current.Some?
    ensures ConnectorBack(c).current == ToModeData(c.current.value) <==>
      match Position(c.modes, c.current.value)
      case Some(k) => k < MAX_MODES
      case None => c.modes == [] && ToModeData(c.current.value) == DEFAULT_MODE
  {
    var m, modes := c.current.value, ModesBack(c);
    assert forall j :: 0 <= j < |modes| ==> (modes[j] == ToModeData(m) <==> SameMode(c.modes[j], m));
    assert modes == [] <==> c.modes == [];
  }

  /** The first 64 EDID bytes always come back.  The whole EDID does if and only
      if every later byte that shares its place with a mode happens to equal
      that mode's byte. */
  lemma EdidComesBackIff(c: Connector)
    ensures Cut(EdidBack(c), 64) == Cut(c.edid, 64)
    ensures EdidBack(c) == Cut(c.edid, EDID_MAX) <==>
      forall k :: 0 <= k < EdidLen(c) && Overwritten(c, k) ==> c.edid[k] == ModeByte(c, k)
  {
  }

  /** A 128-byte EDID next to a single mode already loses bytes. */
  lemma EdidIsOverwritten(m: Mode)
    requires m.width % 0x100 != 7
    ensures
      var c := Connector([], 1, true, 0, 0, 0, 0, seq(EDID_MAX, k => 7), [m], None);
      EdidBack(c) != c.edid
  {
    var c := Connector([], 1, true, 0, 0, 0, 0, seq(EDID_MAX, k => 7), [m], None);
    assert EdidBack(c)[64] == EdidByteBack(c, 64) == ModeBytes(m)[0] == m.width % 0x100;
  }

  /** What the reader learns of driver and session, for each environment: the
      session is Wayland's if its variable is set, else X11's if that is, else
      unknown; the driver is Wayland's if it is asked for, or if nothing is asked
      for in a Wayland session without an NVIDIA card in front. */
  lemma ChoiceComesBack(mem: seq<Byte>, hw: Hardware, env: Environment)
    requires Written(mem, hw, env) && hw.gpus != []
    ensures
      var d := Parse(mem);
      && d.Some?
      && d.value.session == (if env.wayland then 2 else if env.x11 then 1 else 0)
      && d.value.driverChoice in {1, 2}
      && (d.value.driverChoice == 2 <==>
            env.choice == ChooseWayland || (env.choice == Unset && env.wayland && hw.gpus[0].vendor != 0x10DE))
  {
    DisplayRoundTrip(mem, hw, env);
  }

  /** Which connectors are shown: the connected ones in their order, as far as
      there is room. */
  lemma {:induction false} ConnectedOnly(a: seq<Connector>, b: seq<Connector>, c: Connector)
    ensures Connected([]) == [] && Connected([c]) == if c.connected then [c] else []
    ensures Connected(a + b) == Connected(a) + Connected(b)
  {
    if a == [] {
      assert a + b == b;
    } else {
      ConnectedOnly(a[1..], b, c);
      assert (a + b)[1..] == a[1..] + b;
    }
    assert [c][1..] == [];
  }

  lemma ShownIsFirstEight(hw: Hardware)
    ensures Shown(hw) <= Connected(hw.connectors) && |Shown(hw)| == Min(|Connected(hw.connectors)|, 8)
  {
  }

  /** A string as it is read back: its bytes up to the first NUL, its end, or the
      room there is for it. */
  predicate ReadAs(back: seq<Byte>, s: seq<Byte>, room: nat) {
    && |back| <= room && back <= s && 0 !in back
    && (|back| == room || |back| == |s| || s[|back|] == 0)
  }

  lemma CutIsReadAs(s: seq<Byte>, room: nat)
    ensures ReadAs(UpToNul(Cut(s, room)), s, room)
  {
    var cut := Cut(s, room);
    var n := NulAt(cut);
    assert cut[..n] <= s && forall i :: 0 <= i < n ==> cut[..n][i] == cut[i];
    assert n < |cut| ==> s[n] == cut[n];
  }

  /** The graphics card, field by field. */
  lemma GpuReadsBack(mem: seq<Byte>, hw: Hardware, env: Environment)
    requires Written(mem, hw, env) && hw.gpus != []
    ensures Parse(mem).Some?
    ensures
      var g, back := hw.gpus[0], Parse(mem).value.gpu;
      && back.vendor == g.vendor && back.device == g.device && back.revision == g.revision
      && back.subsysVendor == g.subsysVendor && back.subsysDevice == g.subsysDevice && back.vramBytes == g.vram
      && ReadAs(back.driver, g.driver, 63) && ReadAs(back.busId, g.busId, 63) && ReadAs(back.gpuName, g.name, 63)
  {
    DisplayRoundTrip(mem, hw, env);
    CutIsReadAs(hw.gpus[0].driver, 63);
    CutIsReadAs(hw.gpus[0].busId, 63);
    CutIsReadAs(hw.gpus[0].name, 63);
  }

  lemma ModeReadsBack(c: Connector, j: nat)
    requires j < |c.modes| && j < 64
    ensures
      var back := ConnectorBack(c).modes;
      |back| > j && back[j].width == c.modes[j].width && back[j].height == c.modes[j].height && back[j].refresh == c.modes[j].refresh
  {
  }

  /** Each connected connector, field by field: the i-th that is connected comes
      back as the i-th, with its first 64 modes. */
  lemma ConnectorReadsBack(mem: seq<Byte>, hw: Hardware, env: Environment, i: nat)
    requires Written(mem, hw, env) && hw.gpus != [] && i < |Connected(hw.connectors)| && i < 8
    ensures Parse(mem).Some? && |Parse(mem).value.connectors| > i
    ensures
      var c, back := Connected(hw.connectors)[i], Parse(mem).value.connectors[i];
      && ReadAs(back.name, c.name, 31) && back.kind == c.kind
      && back.mmWidth == c.mmWidth && back.mmHeight == c.mmHeight
      && |back.edid| == Min(|c.edid|, 128) && |back.modes| == Min(|c.modes|, 64)
      && forall j :: 0 <= j < |back.modes| ==>
           && back.modes[j].width == c.modes[j].width && back.modes[j].height == c.modes[j].height
           && back.modes[j].refresh == c.modes[j].refresh
  {
    DisplayRoundTrip(mem, hw, env);
    var c := Connected(hw.connectors)[i];
    assert Shown(hw)[i] == c;
    CutIsReadAs(c.name, 31);
    forall j | 0 <= j < Min(|c.modes|, 64)
      ensures
        var back := ConnectorBack(c).modes;
        |back| > j && back[j].width == c.modes[j].width && back[j].height == c.modes[j].height && back[j].refresh == c.modes[j].refresh
    {
      ModeReadsBack(c, j);
    }
  }
}
