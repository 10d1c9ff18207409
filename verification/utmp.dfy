/**
 * The login-accounting record codec of crochet-utmp: the record kinds and
 * their numeric codes, the encoder `NewEntry::into_raw` that fills a
 * zeroed `struct utmpx`, and the decoder `Entry::from_raw`.
 *
 * The record follows the glibc x86-64 layout of POSIX `struct utmpx`
 * (POSIX.1-2017, Base Definitions, chapter 13, <utmpx.h>). Its `char`
 * arrays are modelled as raw bytes, its C integers as bounded `int`s.
 */
module Utmp {
  import opened Wrappers

  type Byte = b: int | 0 <= b < 0x100
  type I16 = x: int | -0x8000 <= x < 0x8000
  type I32 = x: int | -0x8000_0000 <= x < 0x8000_0000

  const I32_MAX: int := 0x7FFF_FFFF

  // Record kinds of glibc's <utmpx.h>; bindgen exports them as u32 constants.
  const EMPTY: nat := 0
  const RUN_LVL: nat := 1
  const BOOT_TIME: nat := 2
  const NEW_TIME: nat := 3
  const OLD_TIME: nat := 4
  const INIT_PROCESS: nat := 5
  const LOGIN_PROCESS: nat := 6
  const USER_PROCESS: nat := 7
  const DEAD_PROCESS: nat := 8

  /** The codes that name a variant of EntryType (RUN_LVL has none). */
  const KNOWN_CODES: set<int> :=
    {EMPTY, BOOT_TIME, NEW_TIME, OLD_TIME, INIT_PROCESS, LOGIN_PROCESS, USER_PROCESS, DEAD_PROCESS}

  // Field sizes of the glibc x86-64 record.
  const LINE_SIZE: nat := 32
  const ID_SIZE: nat := 4
  const USER_SIZE: nat := 32
  const HOST_SIZE: nat := 256
  const ADDR_WORDS: nat := 4
  const RESERVED_SIZE: nat := 20

  /** Most bytes of `user` and `line` the encoder copies, leaving room for a NUL. */
  const TEXT_CAP: nat := 31

  // ---------------------------------------------------------------------------
  // Record kinds
  // ---------------------------------------------------------------------------

  datatype EntryType =
    | Empty | BootTime | OldTime | NewTime
    | UserProcess | InitProcess | LoginProcess | DeadProcess

  datatype TryFromNonUtmpxError = TryFromNonUtmpxError

  datatype Ordering = Less | Equal | Greater

  /**
   * `Into<i16>`: the glibc constant of the variant, narrowed to i16. The
   * narrowing `try_into().unwrap()` cannot fail, as every constant is at most 8.
   */
  function Into(k: EntryType): (c: I16)
    ensures c in KNOWN_CODES
    ensures c != RUN_LVL
  {
    match k
    case Empty => EMPTY
    case BootTime => BOOT_TIME
    case OldTime => OLD_TIME
    case NewTime => NEW_TIME
    case UserProcess => USER_PROCESS
    case InitProcess => INIT_PROCESS
    case LoginProcess => LOGIN_PROCESS
    case DeadProcess => DEAD_PROCESS
  }

  /** Rust's `item as u32` on an i16: sign extension, then reinterpretation. */
  function AsU32(x: I16): (u: nat)
    ensures u < 0x1_0000_0000
    ensures x >= 0 ==> u == x
    ensures x < 0 ==> u >= 0xFFFF_8000
  {
    if x < 0 then x + 0x1_0000_0000 else x
  }

  /** `TryFrom<i16>`: the code table read backwards, after widening to u32. */
  function TryFrom(item: I16): (r: Result<EntryType, TryFromNonUtmpxError>)
    ensures r.Ok? ==> Into(r.value) == item
  {
    var u := AsU32(item);
    if u == EMPTY then Ok(Empty)
    else if u == BOOT_TIME then Ok(BootTime)
    else if u == OLD_TIME then Ok(OldTime)
    else if u == NEW_TIME then Ok(NewTime)
    else if u == USER_PROCESS then Ok(UserProcess)
    else if u == INIT_PROCESS then Ok(InitProcess)
    else if u == LOGIN_PROCESS then Ok(LoginProcess)
    else if u == DEAD_PROCESS then Ok(DeadProcess)
    else Err(TryFromNonUtmpxError)
  }

  /** Decoding the code of a kind gives the kind back. */
  lemma TryFromInto(k: EntryType)
    ensures TryFrom(Into(k)) == Ok(k)
  {
  }

  /** The code table is injective. */
  lemma IntoInjective(a: EntryType, b: EntryType)
    ensures Into(a) == Into(b) <==> a == b
  {
    TryFromInto(a);
    TryFromInto(b);
  }

  /**
   * Exactly the eight known codes decode; every other i16, RUN_LVL and all
   * negative values included, is an error and never a default variant.
   */
  lemma TryFromAcceptsExactlyKnownCodes(item: I16)
    ensures TryFrom(item).Ok? <==> item in KNOWN_CODES
    ensures item !in KNOWN_CODES ==> TryFrom(item) == Err(TryFromNonUtmpxError)
    ensures item < 0 || item == RUN_LVL ==> TryFrom(item).Err?
  {
  }

  /** Three-way comparison of integers, as `i16::partial_cmp` gives it. */
  function CompareInts(x: int, y: int): (o: Ordering)
    ensures o == Less <==> x < y
    ensures o == Equal <==> x == y
  {
    if x < y then Less else if x == y then Equal else Greater
  }

  /** The hand-written `PartialOrd`: compares the codes. */
  function PartialCmp(a: EntryType, b: EntryType): (r: Option<Ordering>)
    ensures r.Some?
    ensures r.value == Less <==> Into(a) < Into(b)
    ensures r.value == Greater <==> Into(b) < Into(a)
    ensures r.value == Equal <==> a == b
  {
    IntoInjective(a, b);
    Some(CompareInts(Into(a), Into(b)))
  }

  /** Position of a variant in the declaration, which `#[derive(Ord)]` compares. */
  function Ordinal(k: EntryType): nat
  {
    match k
    case Empty => 0
    case BootTime => 1
    case OldTime => 2
    case NewTime => 3
    case UserProcess => 4
    case InitProcess => 5
    case LoginProcess => 6
    case DeadProcess => 7
  }

  /** The derived `Ord::cmp`, as written: declaration order. */
  function DerivedCmp(a: EntryType, b: EntryType): (o: Ordering)
    ensures o == Equal <==> a == b
  {
    CompareInts(Ordinal(a), Ordinal(b))
  }

  /**
   * The derived `Ord` and the hand-written `PartialOrd` disagree, which the
   * `Ord` contract forbids; with the glibc codes they disagree on exactly
   * three unordered pairs.
   */
  lemma DerivedCmpDisagreesWithPartialCmp(a: EntryType, b: EntryType)
    ensures DerivedCmp(a, b) != PartialCmp(a, b).value <==>
      || {a, b} == {OldTime, NewTime}
      || {a, b} == {UserProcess, InitProcess}
      || {a, b} == {UserProcess, LoginProcess}
    ensures DerivedCmp(OldTime, NewTime) == Less && PartialCmp(OldTime, NewTime) == Some(Greater)
  {
  }

  /** The total order `Ord::cmp` should be: the one `partial_cmp` already gives. */
  function Cmp(a: EntryType, b: EntryType): (o: Ordering)
    ensures PartialCmp(a, b) == Some(o)
  {
    CompareInts(Into(a), Into(b))
  }

  /** Cmp is a total order: antisymmetric, transitive, and its reversal swaps sides. */
  lemma CmpIsTotalOrder(a: EntryType, b: EntryType, c: EntryType)
    ensures Cmp(a, b) == Equal <==> a == b
    ensures Cmp(a, b) == Less <==> Cmp(b, a) == Greater
    ensures Cmp(a, b) == Less && Cmp(b, c) == Less ==> Cmp(a, c) == Less
  {
    IntoInjective(a, b);
  }

  // ---------------------------------------------------------------------------
  // Time
  // ---------------------------------------------------------------------------

  type Nanos = n: int | 0 <= n < 1_000_000_000

  /** A `SystemTime`: `secs` seconds and `nanos` nanoseconds after UNIX_EPOCH (secs may be negative). */
  datatype SystemTime = SystemTime(secs: int, nanos: Nanos)

  /** A `Duration`: never negative. */
  datatype Duration = Duration(secs: nat, nanos: Nanos)

  datatype SystemTimeError = SystemTimeError

  function NanosSinceEpoch(t: SystemTime): int
  {
    t.secs * 1_000_000_000 + t.nanos
  }

  /** `t.duration_since(UNIX_EPOCH)`: fails when t lies before the epoch. */
  function DurationSinceEpoch(t: SystemTime): (r: Result<Duration, SystemTimeError>)
    ensures r.Ok? <==> NanosSinceEpoch(t) >= 0
    ensures r.Ok? ==> r.value.secs * 1_000_000_000 + r.value.nanos == NanosSinceEpoch(t)
  {
    if t.secs >= 0 then Ok(Duration(t.secs, t.nanos)) else Err(SystemTimeError)
  }

  /** `Duration::subsec_micros`. */
  function SubsecMicros(d: Duration): (us: nat)
    ensures us < 1_000_000
    ensures us * 1000 <= d.nanos < us * 1000 + 1000
  {
    d.nanos / 1000
  }

  /** `UNIX_EPOCH + Duration::from_secs(secs) + Duration::from_micros(micros)`. */
  function FromEpoch(secs: nat, micros: nat): (t: SystemTime)
    ensures NanosSinceEpoch(t) == secs * 1_000_000_000 + micros * 1000
  {
    SystemTime(secs + micros / 1_000_000, (micros % 1_000_000) * 1000)
  }

  /** t with its sub-microsecond part dropped. */
  function TruncateToMicros(t: SystemTime): SystemTime
  {
    SystemTime(t.secs, (t.nanos / 1000) * 1000)
  }

  // ---------------------------------------------------------------------------
  // The raw record and the two entry types
  // ---------------------------------------------------------------------------

  datatype ExitStatus = ExitStatus(termination: I16, exit: I16)

  datatype TimeVal = TimeVal(sec: I32, usec: I32)

  /** A `struct utmpx` value, field by field in declaration order. */
  datatype Utmpx = Utmpx(
    utType: I16,
    utPid: I32,
    utLine: seq<Byte>,
    utId: seq<Byte>,
    utUser: seq<Byte>,
    utHost: seq<Byte>,
    utExit: ExitStatus,
    utSession: I32,
    utTv: TimeVal,
    utAddrV6: seq<I32>,
    reserved: seq<Byte>)
  {
    /** Every array field has its glibc size. */
    predicate WellFormed()
    {
      && |utLine| == LINE_SIZE && |utId| == ID_SIZE && |utUser| == USER_SIZE
      && |utHost| == HOST_SIZE && |utAddrV6| == ADDR_WORDS && |reserved| == RESERVED_SIZE
    }
  }

  /** The write intent: a kind, three texts as their UTF-8 bytes, and a time. */
  datatype NewEntry = NewEntry(id: seq<Byte>, kind: EntryType, user: seq<Byte>, line: seq<Byte>, time: SystemTime)

  /** The decoded view. (The borrow of the raw record it came from is not modelled.) */
  datatype Entry = Entry(kind: Option<EntryType>, user: seq<Byte>, line: seq<Byte>, time: SystemTime)

  /** The ways the encoder and the decoder panic at an `unwrap`. */
  datatype Panic =
    | BeforeEpoch       // duration_since(UNIX_EPOCH) failed
    | SecondsOverflow   // as_secs() does not fit tv_sec
    | NegativeSeconds   // tv_sec does not convert to u64
    | NegativeMicros    // tv_usec does not convert to u64

  function Zeros(n: nat): (z: seq<Byte>)
    ensures |z| == n
    ensures forall i :: 0 <= i < n ==> z[i] == 0
  {
    seq(n, _ => 0)
  }

  /** The all-zero record `MaybeUninit::zeroed().assume_init()` yields. */
  function ZeroRecord(): (z: Utmpx)
    ensures z.WellFormed()
  {
    Utmpx(0, 0, Zeros(LINE_SIZE), Zeros(ID_SIZE), Zeros(USER_SIZE), Zeros(HOST_SIZE),
          ExitStatus(0, 0), 0, TimeVal(0, 0), seq(ADDR_WORDS, _ => 0), Zeros(RESERVED_SIZE))
  }

  // ---------------------------------------------------------------------------
  // Encoding
  // ---------------------------------------------------------------------------

  /** The copy length as written: `len.max(31)`. */
  function CopyLenAsWritten(len: nat): (n: nat)
    ensures n >= TEXT_CAP && n >= len
    ensures n == len || n == TEXT_CAP
  {
    if len < TEXT_CAP then TEXT_CAP else len
  }

  /** A copy of `count` bytes reads inside a `srcLen`-byte source and writes inside a `size`-byte field. */
  predicate CopyInBounds(srcLen: nat, count: nat, size: nat)
  {
    count <= srcLen && count <= size
  }

  /**
   * As written, a text copy is in bounds only for a source of 31 or 32 bytes
   * into a 32-byte field, and never into the 4-byte `ut_id`.
   */
  lemma AsWrittenCopyInBounds(len: nat)
    ensures CopyInBounds(len, CopyLenAsWritten(len), USER_SIZE) <==> TEXT_CAP <= len <= USER_SIZE
    ensures !CopyInBounds(len, CopyLenAsWritten(len), ID_SIZE)
  {
  }

  /** The crate's own test writes the 4-byte text "test": the copy reads 27 bytes past it. */
  lemma AsWrittenCopyOverreadsShortText()
    ensures var len := |"test"|; CopyLenAsWritten(len) == len + 27 && !CopyInBounds(len, CopyLenAsWritten(len), USER_SIZE)
  {
  }

  /** The corrected copy length: `len.min(cap)`. */
  function CopyLen(len: nat, cap: nat): (n: nat)
    ensures CopyInBounds(len, n, cap)
    ensures n == len || n == cap
  {
    if len < cap then len else cap
  }

  /** A fixed field of `size` bytes holding the first `n` bytes of `src`, zero after them. */
  function Place(src: seq<Byte>, n: nat, size: nat): (f: seq<Byte>)
    requires CopyInBounds(|src|, n, size)
    ensures |f| == size
  {
    src[..n] + Zeros(size - n)
  }

  /**
   * What `into_raw` returns, or the panic it stops at: the zero record with
   * the three texts copied (truncated), the kind's code and the time split
   * into whole seconds and microseconds.
   */
  function Encode(e: NewEntry): (r: Result<Utmpx, Panic>)
    ensures r.Ok? <==> 0 <= NanosSinceEpoch(e.time) && e.time.secs <= I32_MAX
    ensures r == Err(BeforeEpoch) <==> NanosSinceEpoch(e.time) < 0
    ensures r.Ok? ==> r.value.WellFormed()
  {
    match DurationSinceEpoch(e.time)
    case Err(_) => Err(BeforeEpoch)
    case Ok(d) =>
      if d.secs > I32_MAX then Err(SecondsOverflow)
      else
        Ok(ZeroRecord().(
          utId := Place(e.id, CopyLen(|e.id|, ID_SIZE), ID_SIZE),
          utUser := Place(e.user, CopyLen(|e.user|, TEXT_CAP), USER_SIZE),
          utLine := Place(e.line, CopyLen(|e.line|, TEXT_CAP), LINE_SIZE),
          utType := Into(e.kind),
          utTv := TimeVal(d.secs, SubsecMicros(d))))
  }

  /**
   * Every byte the encoder does not write is zero: the fields it never
   * touches, and the tail of each text field after the copied bytes; in
   * particular `ut_user` and `ut_line` always end in a NUL.
   */
  lemma EncodeZeroesUnwrittenBytes(e: NewEntry, i: nat)
    requires Encode(e).Ok?
    ensures var x := Encode(e).value;
      && x.utPid == 0 && x.utHost == Zeros(HOST_SIZE) && x.utExit == ExitStatus(0, 0)
      && x.utSession == 0 && x.utAddrV6 == seq(ADDR_WORDS, _ => 0) && x.reserved == Zeros(RESERVED_SIZE)
      && (CopyLen(|e.user|, TEXT_CAP) <= i < USER_SIZE ==> x.utUser[i] == 0)
      && (CopyLen(|e.line|, TEXT_CAP) <= i < LINE_SIZE ==> x.utLine[i] == 0)
      && (CopyLen(|e.id|, ID_SIZE) <= i < ID_SIZE ==> x.utId[i] == 0)
      && x.utUser[USER_SIZE - 1] == 0 && x.utLine[LINE_SIZE - 1] == 0
  {
  }

  /** The texts land in their fields truncated to capacity, and the kind as its code. */
  lemma EncodeCopiesTexts(e: NewEntry)
    requires Encode(e).Ok?
    ensures var x := Encode(e).value;
      && x.utUser[..CopyLen(|e.user|, TEXT_CAP)] == e.user[..CopyLen(|e.user|, TEXT_CAP)]
      && x.utLine[..CopyLen(|e.line|, TEXT_CAP)] == e.line[..CopyLen(|e.line|, TEXT_CAP)]
      && x.utId[..CopyLen(|e.id|, ID_SIZE)] == e.id[..CopyLen(|e.id|, ID_SIZE)]
      && TryFrom(x.utType) == Ok(e.kind)
  {
    TryFromInto(e.kind);
  }

  /**
   * `ut_tv` holds the whole seconds since the epoch and the microseconds
   * within that second: the time truncated to microseconds.
   */
  lemma EncodeSplitsTime(e: NewEntry)
    requires Encode(e).Ok?
    ensures var tv := Encode(e).value.utTv;
      && 0 <= tv.usec < 1_000_000 && tv.sec == e.time.secs
      && tv.sec * 1_000_000 + tv.usec == NanosSinceEpoch(e.time) / 1000
  {
  }

  // ---------------------------------------------------------------------------
  // The in-place encoder
  // ---------------------------------------------------------------------------

  /** The mutable record `x` that `into_raw` fills in place. */
  class RecordBuffer {
    var utType: I16
    var utPid: I32
    const utLine: array<Byte>
    const utId: array<Byte>
    const utUser: array<Byte>
    const utHost: array<Byte>
    var utExit: ExitStatus
    var utSession: I32
    var utTv: TimeVal
    const utAddrV6: array<I32>
    const reserved: array<Byte>

    ghost predicate Valid()
      reads this
    {
      && utLine.Length == LINE_SIZE && utId.Length == ID_SIZE && utUser.Length == USER_SIZE
      && utHost.Length == HOST_SIZE && utAddrV6.Length == ADDR_WORDS && reserved.Length == RESERVED_SIZE
      && utLine != utId && utLine != utUser && utLine != utHost && utLine != reserved
      && utId != utUser && utId != utHost && utId != reserved
      && utUser != utHost && utUser != reserved && utHost != reserved
    }

    /** The record as a value. */
    function Value(): (u: Utmpx)
      reads this, utLine, utId, utUser, utHost, utAddrV6, reserved
      requires Valid()
      ensures u.WellFormed()
    {
      Utmpx(utType, utPid, utLine[..], utId[..], utUser[..], utHost[..],
            utExit, utSession, utTv, utAddrV6[..], reserved[..])
    }

    /** `MaybeUninit::zeroed().assume_init()`. */
    constructor Zeroed()
      ensures Valid() && Value() == ZeroRecord()
      ensures fresh(utLine) && fresh(utId) && fresh(utUser) && fresh(utHost) && fresh(utAddrV6) && fresh(reserved)
    {
      utType, utPid, utExit, utSession, utTv := 0, 0, ExitStatus(0, 0), 0, TimeVal(0, 0);
      utLine := new Byte[LINE_SIZE](_ => 0);
      utId := new Byte[ID_SIZE](_ => 0);
      utUser := new Byte[USER_SIZE](_ => 0);
      utHost := new Byte[HOST_SIZE](_ => 0);
      utAddrV6 := new I32[ADDR_WORDS](_ => 0);
      reserved := new Byte[RESERVED_SIZE](_ => 0);
      new;
      assert utLine[..] == Zeros(LINE_SIZE);
      assert utId[..] == Zeros(ID_SIZE);
      assert utUser[..] == Zeros(USER_SIZE);
      assert utHost[..] == Zeros(HOST_SIZE);
      assert reserved[..] == Zeros(RESERVED_SIZE);
      assert utAddrV6[..] == seq(ADDR_WORDS, _ => 0);
    }
  }

  /**
   * `ptr::copy_nonoverlapping(src, dst, count)`: its requires is the
   * bounds obligations of the unsafe copy.
   */
  method CopyNonoverlapping(src: seq<Byte>, dst: array<Byte>, count: nat)
    requires CopyInBounds(|src|, count, dst.Length)
    modifies dst
    ensures dst[..] == src[..count] + old(dst[count..])
  {
    forall i | 0 <= i < count {
      dst[i] := src[i];
    }
  }

  /** One text copy of `into_raw` into a zeroed field, with the corrected length. */
  method CopyText(src: seq<Byte>, dst: array<Byte>, cap: nat)
    requires cap <= dst.Length && dst[..] == Zeros(dst.Length)
    modifies dst
    ensures dst[..] == Place(src, CopyLen(|src|, cap), dst.Length)
  {
    var n := CopyLen(|src|, cap);
    assert dst[n..] == Zeros(dst.Length - n);
    CopyNonoverlapping(src, dst, n);
  }

  /** `NewEntry::into_raw`, with the copy length corrected to `min`. */
  method IntoRaw(e: NewEntry) returns (r: Result<Utmpx, Panic>)
    ensures r == Encode(e)
  {
    var x := new RecordBuffer.Zeroed();
    CopyText(e.id, x.utId, ID_SIZE);
    CopyText(e.user, x.utUser, TEXT_CAP);
    CopyText(e.line, x.utLine, TEXT_CAP);
    x.utType := Into(e.kind);
    var since := DurationSinceEpoch(e.time);
    if since.Err? {
      return Err(BeforeEpoch);
    }
    var d := since.value;
    if d.secs > I32_MAX {
      return Err(SecondsOverflow);
    }
    x.utTv := TimeVal(d.secs, SubsecMicros(d));
    r := Ok(x.Value());
  }

  // ---------------------------------------------------------------------------
  // Decoding
  // ---------------------------------------------------------------------------

  /** The bytes of `s` before its first NUL, or all of `s` when it has none. */
  function UntilNul(s: seq<Byte>): (t: seq<Byte>)
    ensures t <= s
    ensures 0 !in t
    ensures |t| < |s| ==> s[|t|] == 0
  {
    if s == [] || s[0] == 0 then [] else [s[0]] + UntilNul(s[1..])
  }

  /** A NUL ends the text: what follows it is never read. */
  lemma {:induction false} UntilNulStopsAtNul(p: seq<Byte>, q: seq<Byte>)
    requires 0 !in p
    ensures UntilNul(p + [0] + q) == p
  {
    if p != [] {
      assert (p + [0] + q)[1..] == p[1..] + [0] + q;
      UntilNulStopsAtNul(p[1..], q);
    }
  }

  /** A text without NUL is read whole. */
  lemma {:induction false} UntilNulWhole(p: seq<Byte>)
    requires 0 !in p
    ensures UntilNul(p) == p
  {
    if p != [] {
      UntilNulWhole(p[1..]);
    }
  }

  /** Reading stops at the first NUL however the text continues. */
  lemma {:induction false} UntilNulPrefix(p: seq<Byte>, q: seq<Byte>)
    requires 0 in p
    ensures UntilNul(p + q) == UntilNul(p)
  {
    if p[0] != 0 {
      assert (p + q)[1..] == p[1..] + q;
      UntilNulPrefix(p[1..], q);
    }
  }

  /**
   * `Entry::from_raw` as written. `CStr::from_ptr` reads from the start of
   * the field until a NUL, with no bound: past `ut_user` lies `ut_host`,
   * and past `ut_line` lie `ut_id`, `ut_user` and `ut_host`. The requires
   * clauses say a NUL must come before the end of `ut_host`.
   */
  function FromRaw(u: Utmpx): (r: Result<Entry, Panic>)
    requires 0 in u.utUser + u.utHost
    requires 0 in u.utLine + u.utId + u.utUser + u.utHost
    ensures r.Ok? <==> u.utTv.sec >= 0 && u.utTv.usec >= 0
    ensures r.Ok? ==> r.value.kind == TryFrom(u.utType).ToOption()
    ensures r.Ok? ==> 0 !in r.value.user && r.value.user + [0] <= u.utUser + u.utHost
    ensures r.Ok? ==> 0 !in r.value.line && r.value.line + [0] <= u.utLine + u.utId + u.utUser + u.utHost
    ensures r.Ok? ==> NanosSinceEpoch(r.value.time) == u.utTv.sec * 1_000_000_000 + u.utTv.usec * 1000
  {
    if u.utTv.sec < 0 then Err(NegativeSeconds)
    else if u.utTv.usec < 0 then Err(NegativeMicros)
    else
      Ok(Entry(TryFrom(u.utType).ToOption(),
               UntilNul(u.utUser + u.utHost),
               UntilNul(u.utLine + u.utId + u.utUser + u.utHost),
               FromEpoch(u.utTv.sec, u.utTv.usec)))
  }

  /**
   * A `ut_user` field with no NUL (glibc permits a full 32-byte name) makes
   * `from_raw` read on into `ut_host`: the name it returns ends with the host.
   */
  lemma FromRawReadsPastUserField(u: Utmpx)
    requires u.WellFormed() && 0 !in u.utUser && 0 in u.utHost
    requires u.utTv.sec >= 0 && u.utTv.usec >= 0
    ensures FromRaw(u).value.user == u.utUser + UntilNul(u.utHost)
    ensures |FromRaw(u).value.user| >= USER_SIZE
  {
    var h := UntilNul(u.utHost);
    var k := |h|;
    assert u.utHost == h + [0] + u.utHost[k + 1..];
    assert u.utUser + u.utHost == (u.utUser + h) + [0] + u.utHost[k + 1..];
    UntilNulStopsAtNul(u.utUser + h, u.utHost[k + 1..]);
    assert 0 in u.utLine + u.utId + u.utUser + u.utHost by {
      assert (u.utLine + u.utId + u.utUser + u.utHost)[LINE_SIZE + ID_SIZE + USER_SIZE..] == u.utHost;
    }
  }

  /** `from_raw` with each text read bounded by its field. */
  function FromRawBounded(u: Utmpx): (r: Result<Entry, Panic>)
    ensures r.Ok? <==> u.utTv.sec >= 0 && u.utTv.usec >= 0
    ensures r.Ok? ==> r.value.kind == TryFrom(u.utType).ToOption()
    ensures r.Ok? ==> r.value.user <= u.utUser && r.value.line <= u.utLine
    ensures r.Ok? ==> 0 !in r.value.user && (|r.value.user| < |u.utUser| ==> u.utUser[|r.value.user|] == 0)
    ensures r.Ok? ==> 0 !in r.value.line && (|r.value.line| < |u.utLine| ==> u.utLine[|r.value.line|] == 0)
    ensures r.Ok? ==> NanosSinceEpoch(r.value.time) == u.utTv.sec * 1_000_000_000 + u.utTv.usec * 1000
  {
    if u.utTv.sec < 0 then Err(NegativeSeconds)
    else if u.utTv.usec < 0 then Err(NegativeMicros)
    else Ok(Entry(TryFrom(u.utType).ToOption(), UntilNul(u.utUser), UntilNul(u.utLine), FromEpoch(u.utTv.sec, u.utTv.usec)))
  }

  /** Where each field holds a NUL, the bounded decoder and the one as written agree. */
  lemma FromRawBoundedAgrees(u: Utmpx)
    requires 0 in u.utUser && 0 in u.utLine
    ensures 0 in u.utUser + u.utHost && 0 in u.utLine + u.utId + u.utUser + u.utHost
    ensures FromRaw(u) == FromRawBounded(u)
  {
    UntilNulPrefix(u.utUser, u.utHost);
    UntilNulPrefix(u.utLine, u.utId + u.utUser + u.utHost);
    assert u.utLine + u.utId + u.utUser + u.utHost == u.utLine + (u.utId + u.utUser + u.utHost);
  }

  /** Reading a field that `Place` filled with fewer bytes than its size. */
  lemma {:induction false} UntilNulOfPlace(src: seq<Byte>, n: nat, size: nat)
    requires CopyInBounds(|src|, n, size) && n < size
    ensures UntilNul(Place(src, n, size)) == UntilNul(src[..n])
  {
    var f := Place(src, n, size);
    assert f == src[..n] + Zeros(size - n);
    assert f[n] == 0;
    assert f == src[..n] + ([0] + Zeros(size - n - 1));
    if 0 in src[..n] {
      UntilNulPrefix(src[..n], Zeros(size - n));
    } else {
      assert f == src[..n] + [0] + Zeros(size - n - 1);
      UntilNulStopsAtNul(src[..n], Zeros(size - n - 1));
      UntilNulWhole(src[..n]);
    }
  }

  /**
   * Round trip: decoding what the encoder wrote gives back the kind, each
   * text truncated to 31 bytes and cut at its first NUL, and the time
   * truncated to microseconds; both decoders agree on it.
   */
  lemma {:induction false} RoundTrip(e: NewEntry)
    requires Encode(e).Ok?
    ensures var x := Encode(e).value;
      && 0 in x.utUser && 0 in x.utLine
      && FromRaw(x) == FromRawBounded(x)
      && FromRawBounded(x) == Ok(Entry(Some(e.kind),
                                      UntilNul(e.user[..CopyLen(|e.user|, TEXT_CAP)]),
                                      UntilNul(e.line[..CopyLen(|e.line|, TEXT_CAP)]),
                                      TruncateToMicros(e.time)))
  {
    var x := Encode(e).value;
    EncodeZeroesUnwrittenBytes(e, USER_SIZE - 1);
    assert x.utUser[USER_SIZE - 1] == 0 && x.utLine[LINE_SIZE - 1] == 0;
    FromRawBoundedAgrees(x);
    UntilNulOfPlace(e.user, CopyLen(|e.user|, TEXT_CAP), USER_SIZE);
    UntilNulOfPlace(e.line, CopyLen(|e.line|, TEXT_CAP), LINE_SIZE);
    TryFromInto(e.kind);
    EncodeSplitsTime(e);
    var t := FromEpoch(x.utTv.sec, x.utTv.usec);
    assert t.secs == e.time.secs && t.nanos == (e.time.nanos / 1000) * 1000;
  }

  /**
   * Truncation boundary: a NUL-free text of at most 31 bytes reads back
   * exactly; a longer one reads back as its first 31 bytes.
   */
  lemma TextRoundTripBoundary(e: NewEntry)
    requires Encode(e).Ok? && 0 !in e.user
    ensures |e.user| <= TEXT_CAP ==> FromRawBounded(Encode(e).value).value.user == e.user
    ensures |e.user| > TEXT_CAP ==> FromRawBounded(Encode(e).value).value.user == e.user[..TEXT_CAP]
  {
    RoundTrip(e);
    var n := CopyLen(|e.user|, TEXT_CAP);
    assert 0 !in e.user[..n] by {
      forall i | 0 <= i < n ensures e.user[..n][i] != 0 { assert e.user[..n][i] == e.user[i]; }
    }
    UntilNulWhole(e.user[..n]);
  }

  /**
   * The encoder as written, for a 32-byte name (one of the two lengths its
   * copy handles in bounds), fills `ut_user` without a NUL: exactly the
   * record `from_raw` then reads past.
   */
  lemma AsWrittenFullNameLeavesNoTerminator(name: seq<Byte>)
    requires |name| == USER_SIZE && 0 !in name
    ensures CopyInBounds(|name|, CopyLenAsWritten(|name|), USER_SIZE)
    ensures 0 !in Place(name, CopyLenAsWritten(|name|), USER_SIZE)
  {
    assert Place(name, USER_SIZE, USER_SIZE) == name;
  }
}
