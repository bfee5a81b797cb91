/** Machine integers. */
module MachineWords {
  type byte = n: nat | n < 0x100
  type u32 = n: nat | n < 0x1_0000_0000

  /** Conversion to an unsigned 32-bit number. */
  function Low32(n: int): u32 {
    n % 0x1_0000_0000
  }

  /** Conversion to an unsigned 64-bit number. */
  function Low64(n: int): nat {
    n % 0x1_0000_0000_0000_0000
  }

  /** The 32-bit conversion of a natural number never adds, and is exact precisely for those that fit. */
  lemma Low32Exact(n: nat)
    ensures Low32(n) <= n && (Low32(n) == n <==> n < 0x1_0000_0000)
  {
  }
}

/** The tunable parameters of the transport. */
module Parameters {
  import opened MachineWords

  datatype Settings = Settings(
    defaultWindow: u32,
    maximumWindow: u32,
    defaultData: u32,
    maxData: u32,
    maxSize: u32)

  /**
   Settings under which the protocol can work: windows are neither empty nor nearly
   half a cycle of numbers, and a packet holds the data and the loss reports it may
   have to. The program starts with those of the witness.
   */
  type SoundSettings = s: Settings |
    && 0 < s.defaultWindow <= s.maximumWindow < 0x4000_0000
    && 0 < s.defaultData <= s.maxData
    && s.maxData + 16 <= s.maxSize
    && 16 + 4 * s.maximumWindow <= s.maxSize
    witness Settings(16, 512, 1450, 25950, 25980)

  /** Any such settings: nothing more is known of them. */
  const SETTINGS: SoundSettings

  const DEFAULT_WINDOW: nat := SETTINGS.defaultWindow
  const MAXIMUM_WINDOW: nat := SETTINGS.maximumWindow
  const DEFAULT_DATA: nat := SETTINGS.defaultData
  const MAX_DATA: nat := SETTINGS.maxData
  const MAX_SIZE: nat := SETTINGS.maxSize
}

/**
 31-bit packet sequence numbers. Packets are counted with unbounded ("absolute")
 naturals in specifications; `Wire` is the number the packet carries.
 */
module SequenceNumbers {
  import opened MachineWords

  const MODULUS: nat := 0x8000_0000

  type SeqNum = n: nat | n < MODULUS

  function Wire(a: int): (n: SeqNum) {
    a % MODULUS
  }

  /** How many steps of `Next` lead from the wire form of `a` to `n`. */
  function Distance(a: int, n: u32): (d: SeqNum) {
    (n - a) % MODULUS
  }

  function Next(n: SeqNum): (r: SeqNum) {
    if n == MODULUS - 1 then 0 else n + 1
  }

  predicate IsInRange(begin: u32, end: u32, n: u32) {
    if begin <= end then begin <= n < end
    else n < end || (begin <= n && n <= MODULUS - 1)
  }

  lemma NextIsSuccessor(a: int)
    ensures Next(Wire(a)) == Wire(a + 1)
  {
  }

  lemma WireAdds(a: int, k: int)
    ensures Wire(Wire(a) + k) == Wire(a + k)
  {
  }

  /** Counting up from `a` by the distance to `n` arrives at `n`. */
  lemma DistanceReaches(a: int, n: SeqNum)
    ensures Wire(a + Distance(a, n)) == n
  {
  }

  /** Numbers less than a whole cycle ahead are at their true distance. */
  lemma DistanceOfWire(a: int, b: int)
    requires a <= b < a + MODULUS
    ensures Distance(a, Wire(b)) == b - a
  {
  }

  /** Numbers at most a whole cycle behind look far ahead. */
  lemma DistanceOfOldWire(a: int, b: int)
    requires a - MODULUS <= b < a
    ensures Distance(a, Wire(b)) == b + MODULUS - a
  {
  }

  /** Moving ahead by `k` brings a number nearer; passing it puts it a whole cycle away. */
  lemma DistanceShifts(a: int, n: u32, k: nat)
    requires k <= MODULUS
    ensures Distance(a + k, n) == if k <= Distance(a, n) then Distance(a, n) - k else Distance(a, n) - k + MODULUS
  {
  }

  /** The two-case range test of the code is a test on the cyclic distance from the first number. */
  lemma RangeIsDistance(b: int, e: int, n: u32)
    requires b <= e < b + MODULUS
    ensures IsInRange(Wire(b), Wire(e), n) <==> n < MODULUS && Distance(b, n) < e - b
  {
    hide Wire, Distance;
    if n < MODULUS {
      DistanceFromWire(b, n);
    }
    WireAhead(b, e);
  }

  lemma DistanceFromWire(a: int, n: u32)
    requires n < MODULUS
    ensures Distance(a, n) == if n >= Wire(a) then n - Wire(a) else n - Wire(a) + MODULUS
  {
    var q := a / MODULUS;
    assert a == q * MODULUS + Wire(a);
  }

  lemma WireAhead(a: int, b: int)
    requires a <= b < a + MODULUS
    ensures Wire(b) == if Wire(a) + (b - a) < MODULUS then Wire(a) + (b - a) else Wire(a) + (b - a) - MODULUS
  {
    var q := a / MODULUS;
    assert a == q * MODULUS + Wire(a);
  }

  /** The three-case index formula of the code is that distance. */
  lemma IndexIsDistance(b: int, e: int, n: u32)
    requires b <= e < b + MODULUS
    requires n < MODULUS && Distance(b, n) < e - b
    ensures Distance(b, n) == if Wire(b) > Wire(e) && n < Wire(e) then n - Wire(b) + MODULUS else n - Wire(b)
  {
    hide Wire, Distance;
    DistanceFromWire(b, n);
    WireAhead(b, e);
  }
}
