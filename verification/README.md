# crochet, modelled in Dafny

crochet is a small Linux login toolkit. This project models three of its parts.

- **crochet-utmp** (`utmp.dfy`, module `Utmp`) is the codec for login-accounting records.
  - `EntryType` and its two-way table to glibc's `i16` record-kind codes, and the `PartialOrd` built on that table.
  - `NewEntry::into_raw`, which fills a zeroed `struct utmpx`: three texts copied into fixed byte arrays, the kind code, and the time split into seconds and microseconds.
  - `Entry::from_raw`, which reads such a record back.
  - The record follows the glibc x86-64 layout of POSIX `struct utmpx` (POSIX.1-2017, Base Definitions, chapter 13, `<utmpx.h>`): `ut_id` is 4 bytes, `ut_user` and `ut_line` are 32 bytes, and `ut_tv` is two 32-bit integers.
  - The kind codes are glibc's: EMPTY 0, RUN_LVL 1, BOOT_TIME 2, NEW_TIME 3, OLD_TIME 4, INIT_PROCESS 5, LOGIN_PROCESS 6, USER_PROCESS 7, DEAD_PROCESS 8.
  - `into_raw` is modelled as it works, in place. A `RecordBuffer` class holds the record's arrays and `IntoRaw` fills them. The method is proved equal to the pure specification `Encode`, and every property of the encoder is proved about `Encode`.
- **crochet-getty-sys** (`getty_sys.dfy`, module `GettySys`) is the syscall facade.
  - `c` turns a `-1` return into the OS error.
  - `fchown` resolves a user and a group and reports the first failure, in a fixed order.
  - `fchmod` changes the mode bits.
  - The passwd and group databases are maps. The C library's answers are an injected `Libc` value.
- **crochet-getty** (`getty.dfy`, module `Getty`) is the getty loop.
  - `Issue::render` expands the `/etc/issue` banner: `\t` becomes the time.
  - Each round of `main`: open `/dev/<port>`, chown it to root:tty and chmod it 0620, write the clear sequence, read the issue, write a newline and then the rendered banner, spawn `/bin/login` on the tty and wait for it.
  - A `Host` object records every call it makes in its `trace`. Its `World` supplies the operating system's answers as functions of the call's position in the trace, so every schedule of successes and failures is covered.
  - Each method of the round is proved to leave exactly the trace and result its specification function gives: `OpenTtySpec`, `IssueSpec`, `LoginSpec`, `SessionSpec`, `RoundSpec` and `LoopSpec`. The ordering properties are lemmas about those functions.

`wrappers.dfy` holds `Option` and `Result`.

## Model

| member | source | states |
|---|---|---|
| Wrappers.Result.ToOption | crochet-utmp/src/lib.rs:115 | `.ok()` is `Some` exactly for `Ok`, and then holds its value |
| Utmp.Into | crochet-utmp/src/lib.rs:20-35 | every kind maps to one of the eight glibc codes, never RUN_LVL, so the narrowing to i16 cannot fail |
| Utmp.AsU32 | crochet-utmp/src/lib.rs:40 | `item as u32` keeps non-negative codes and sends every negative one to 0xFFFF8000 or above |
| Utmp.TryFrom | crochet-utmp/src/lib.rs:37-54 | an accepted code is exactly the code of the kind returned |
| Utmp.TryFromInto | crochet-utmp/src/lib.rs:20-54 | `try_from(into(k)) == Ok(k)` for every kind |
| Utmp.IntoInjective | crochet-utmp/src/lib.rs:20-35 | two kinds have the same code iff they are the same kind |
| Utmp.TryFromAcceptsExactlyKnownCodes | crochet-utmp/src/lib.rs:37-53 | an i16 decodes iff it is one of the eight known codes; every other value, RUN_LVL and all negatives included, gives `TryFromNonUtmpxError` |
| Utmp.CompareInts | crochet-utmp/src/lib.rs:60 | `i16::partial_cmp`: Less iff x < y, Equal iff x == y |
| Utmp.PartialCmp | crochet-utmp/src/lib.rs:56-62 | always `Some`; Less iff code(a) < code(b), Greater iff code(b) < code(a), Equal iff a == b |
| Utmp.DerivedCmp | crochet-utmp/src/lib.rs:5-15 | the derived `Ord` orders by declaration and is Equal iff a == b |
| Utmp.DerivedCmpDisagreesWithPartialCmp | crochet-utmp/src/lib.rs:5-62 | the derived `Ord` and `partial_cmp` disagree on exactly three pairs: {OldTime, NewTime}, {UserProcess, InitProcess}, {UserProcess, LoginProcess} |
| Utmp.Cmp | crochet-utmp/src/lib.rs:56-62 | the corrected `Ord::cmp` agrees with `partial_cmp` on every pair |
| Utmp.CmpIsTotalOrder | crochet-utmp/src/lib.rs:56-62 | the corrected order is antisymmetric, transitive, and flips when its arguments are swapped |
| Utmp.DurationSinceEpoch | crochet-utmp/src/lib.rs:96 | `duration_since(UNIX_EPOCH)` succeeds iff the time is not before the epoch, and then equals the time since the epoch |
| Utmp.SubsecMicros | crochet-utmp/src/lib.rs:98 | `subsec_micros` is below 1 000 000 and is the sub-second nanoseconds rounded down to microseconds |
| Utmp.FromEpoch | crochet-utmp/src/lib.rs:118-126 | the rebuilt time lies exactly `secs` seconds plus `micros` microseconds after the epoch |
| Utmp.ZeroRecord | crochet-utmp/src/lib.rs:77 | the zeroed record has every array field at its glibc size |
| Utmp.CopyLenAsWritten | crochet-utmp/src/lib.rs:79-93 | the copy length as written, `len.max(31)`, is at least 31 and at least len |
| Utmp.AsWrittenCopyInBounds | crochet-utmp/src/lib.rs:79-93 | as written, a copy into a 32-byte field stays in bounds iff the text has 31 or 32 bytes, and a copy into `ut_id` never does |
| Utmp.AsWrittenCopyOverreadsShortText | crochet-utmp/src/lib.rs:79-93 | for the 4-byte text "test", as the crate's test writes, the copy reads 27 bytes past the text |
| Utmp.CopyLen | crochet-utmp/src/lib.rs:79-93 | the corrected length `min(len, cap)` stays inside the text and inside the field |
| Utmp.Encode | crochet-utmp/src/lib.rs:73-100 | `into_raw` succeeds iff the time is not before the epoch and its seconds fit in `tv_sec`; it panics at `duration_since` exactly for times before the epoch; a record it returns has the glibc field sizes |
| Utmp.EncodeZeroesUnwrittenBytes | crochet-utmp/src/lib.rs:77 | every byte not written is zero: the untouched fields and the tail of each text field; `ut_user` and `ut_line` always end in NUL |
| Utmp.EncodeCopiesTexts | crochet-utmp/src/lib.rs:79-95 | each text lands in its field truncated to capacity, and `ut_type` decodes back to the kind |
| Utmp.EncodeSplitsTime | crochet-utmp/src/lib.rs:96-98 | `tv_sec` holds the whole seconds since the epoch and `tv_usec` is in [0, 1 000 000); together they give the time truncated to microseconds |
| Utmp.RecordBuffer.Zeroed | crochet-utmp/src/lib.rs:77 | a fresh record whose value is the all-zero record |
| Utmp.CopyNonoverlapping | crochet-utmp/src/lib.rs:79-93 | `copy_nonoverlapping` requires `count` to be within both the source and the destination; afterwards the destination starts with the first `count` source bytes and keeps the rest |
| Utmp.CopyText | crochet-utmp/src/lib.rs:79-93 | a zeroed field receives the first `min(len, cap)` bytes of the text, followed by zeros |
| Utmp.IntoRaw | crochet-utmp/src/lib.rs:73-100 | the in-place encoder returns exactly `Encode(e)`: the same record, or the same panic |
| Utmp.UntilNul | crochet-utmp/src/lib.rs:116-117 | the bytes before the first NUL, or all of them when there is none (the bounded decoder's case); for `CStr::from_ptr`, `FromRaw`'s requires guarantee a NUL |
| Utmp.UntilNulStopsAtNul | crochet-utmp/src/lib.rs:116-117 | nothing after the first NUL is read |
| Utmp.UntilNulWhole | crochet-utmp/src/lib.rs:116-117 | a text with no NUL is read whole |
| Utmp.UntilNulPrefix | crochet-utmp/src/lib.rs:116-117 | what follows bytes that already contain a NUL does not change the text read |
| Utmp.FromRaw | crochet-utmp/src/lib.rs:113-129 | `from_raw` as written succeeds iff `tv_sec` and `tv_usec` are non-negative. `kind` is `try_from(ut_type).ok()`. `user` and `line` are the NUL-free bytes up to the first NUL, read through the fields that follow. `time` is `tv_sec` s + `tv_usec` µs after the epoch |
| Utmp.FromRawReadsPastUserField | crochet-utmp/src/lib.rs:116 | when `ut_user` holds no NUL, the user name read is the whole field followed by the host name, so it is longer than the field |
| Utmp.FromRawBounded | crochet-utmp/src/lib.rs:113-129 | the corrected decoder reads each text within its own field: the NUL-free bytes up to the field's first NUL, or the whole field when it holds none; the kind, the time and the panics are as in `from_raw` |
| Utmp.FromRawBoundedAgrees | crochet-utmp/src/lib.rs:116-117 | when `ut_user` and `ut_line` each hold a NUL, `from_raw` as written and the bounded decoder give the same result |
| Utmp.UntilNulOfPlace | crochet-utmp/src/lib.rs:116-117 | reading a field filled with fewer bytes than its size gives what reading those bytes alone gives, since a NUL follows them |
| Utmp.RoundTrip | crochet-utmp/src/lib.rs:73-129 | decoding what `into_raw` wrote gives the kind, each text truncated to 31 bytes and cut at its first NUL, and the time truncated to microseconds; both decoders agree on it |
| Utmp.TextRoundTripBoundary | crochet-utmp/src/lib.rs:84-88 | a NUL-free user name of at most 31 bytes reads back unchanged, and a longer one as its first 31 bytes |
| Utmp.AsWrittenFullNameLeavesNoTerminator | crochet-utmp/src/lib.rs:84-88 | as written, a 32-byte name is copied in bounds but leaves `ut_user` with no NUL |
| GettySys.CStringOk | crochet-getty-sys/src/lib.rs:19-20 | defines when `CString::new` accepts a name: it holds no NUL |
| GettySys.C | crochet-getty-sys/src/lib.rs:11-16 | `c(ret)` is an error carrying errno iff ret == -1; every other value, negative or not, is `Ok(ret)` |
| GettySys.Fchown | crochet-getty-sys/src/lib.rs:18-35 | `BadUser`, `BadGroup` and `IO` each come exactly under the conditions of the checks in their order; `IO` carries errno |
| GettySys.FchownOkIff | crochet-getty-sys/src/lib.rs:18-35 | ownership changes iff both names are NUL-free and resolve, and the call on the resolved uid and gid does not return -1 |
| GettySys.ChownCheckOrder | crochet-getty-sys/src/lib.rs:19-24 | a NUL in the user name beats everything; a NUL in the group name beats an unknown user; an unknown user beats an unknown group |
| GettySys.FchownCallsLibcOnlyWhenResolved | crochet-getty-sys/src/lib.rs:19-33 | if a name fails to resolve, the result does not depend on the C library and is not `IO` |
| GettySys.Fchmod | crochet-getty-sys/src/lib.rs:37-39 | `fchmod` succeeds iff the call does not return -1; its error carries errno |
| Getty.ClearSequenceIsEraseThenHome | crochet-getty/src/bin/crochet-getty.rs:33-36 | the clear sequence is ECMA-48 ED(2) followed by CUP(1;1): ten characters starting with ESC |
| Getty.Render | crochet-getty/src/bin/crochet-getty.rs:46-71 | defines the rendered banner: `\t` becomes the clock, `\X` for any other X stays `\X`, a lone final backslash vanishes, every other character is copied |
| Getty.RenderIssue | crochet-getty/src/bin/crochet-getty.rs:46-71 | the one-pass loop builds exactly `Render(issue, clock)` |
| Getty.RenderCopiesPlainText | crochet-getty/src/bin/crochet-getty.rs:49-68 | a text without a backslash is copied unchanged and in order |
| Getty.RenderAppend | crochet-getty/src/bin/crochet-getty.rs:46-71 | rendering a concatenation is the concatenation of the renderings whenever the first part does not end inside an escape |
| Getty.RenderEscape | crochet-getty/src/bin/crochet-getty.rs:50-63 | a backslash and its opcode become the clock for 't', and the two characters themselves otherwise |
| Getty.RenderReplacesTab | crochet-getty/src/bin/crochet-getty.rs:54-59 | `\t` is replaced by the clock reading, and the text around it renders independently |
| Getty.RenderKeepsOtherEscapes | crochet-getty/src/bin/crochet-getty.rs:60-63 | `\X` for any X other than 't' is written back literally |
| Getty.RenderDropsLoneTrailingBackslash | crochet-getty/src/bin/crochet-getty.rs:50-52 | a lone backslash at the very end produces nothing |
| Getty.RenderIdentity | crochet-getty/src/bin/crochet-getty.rs:49-68 | a template that does not end inside an escape and has no `\t` escape renders to itself; an escaped backslash, as in `\\t`, is no `\t` escape |
| Getty.RenderTabInPlainText | crochet-getty/src/bin/crochet-getty.rs:46-71 | in text otherwise free of backslashes, `\t` becomes the clock and nothing else changes |
| Getty.WelcomeBanner | crochet-getty/src/bin/crochet-getty.rs:46-71 | the template "Welcome\t" plus a newline at 13:05:09 renders as "Welcome13:05:09" and a newline, with no separator |
| Getty.OpenTtySpec | crochet-getty/src/bin/crochet-getty.rs:19-31 | defines `open_tty`'s calls and outcome: an open error is returned; a chown or chmod failure panics with its message; otherwise the descriptor |
| Getty.IssueSpec | crochet-getty/src/bin/crochet-getty.rs:87-90 | defines the calls from the clear sequence to the banner write, each `?` returning its error, the banner rendered at the clock of its write |
| Getty.LoginSpec | crochet-getty/src/bin/crochet-getty.rs:91-97 | defines the spawn of login on the tty, which panics on failure, and the wait, whose error is returned |
| Getty.SessionSpec | crochet-getty/src/bin/crochet-getty.rs:87-97 | defines the session on an open tty: the banner calls, then login if they all succeeded |
| Getty.RoundSpec | crochet-getty/src/bin/crochet-getty.rs:84-97 | defines one iteration of the loop: `open_tty`, then the session on the descriptor it returned |
| Getty.Loop | crochet-getty/src/bin/crochet-getty.rs:83-98 | defines the first rounds of a loop that runs each round where the previous one ended and stops at the first round that does not go on |
| Getty.LoopSpec | crochet-getty/src/bin/crochet-getty.rs:83-98 | defines the first rounds of `main`'s loop, each one a `RoundSpec` |
| Getty.LoopNext | crochet-getty/src/bin/crochet-getty.rs:83-98 | when the first k rounds all go on, round k+1 starts where they end |
| Getty.LoopStops | crochet-getty/src/bin/crochet-getty.rs:83-98 | once a round stops the loop, later rounds add no calls and keep its ending |
| Getty.LoopPrefix | crochet-getty/src/bin/crochet-getty.rs:83-98 | the calls of fewer rounds are a prefix of the calls of more rounds |
| Getty.LoopTwoRounds | crochet-getty/src/bin/crochet-getty.rs:83-98 | after a first round that goes on, two rounds make the first round's calls and then the second's |
| Getty.LoopSecondRound | crochet-getty/src/bin/crochet-getty.rs:83-98 | any run of two or more rounds begins with the first two rounds' calls |
| Getty.RoundOpensDevicePath | crochet-getty/src/bin/crochet-getty.rs:22-25 | a round first opens exactly "/dev/" followed by the port; if the open fails, that is the round's only call and the round returns the error |
| Getty.ProvisioningFailureHaltsHandoff | crochet-getty/src/bin/crochet-getty.rs:28-29 | if chown fails the round panics with the chown message, otherwise if chmod fails with the chmod message; it makes no call but open, chown and chmod: no clear, no banner, no login |
| Getty.ChownBeforeChmod | crochet-getty/src/bin/crochet-getty.rs:28-29 | a chmod in a round is its third call, right after a chown of the same descriptor to root:tty that succeeded |
| Getty.OpenTtyFollowsFixedOrder | crochet-getty/src/bin/crochet-getty.rs:19-31 | `open_tty` makes a prefix of open, chown, chmod, and all three when it returns the descriptor |
| Getty.SessionFollowsFixedOrder | crochet-getty/src/bin/crochet-getty.rs:87-97 | on an open tty the calls are a prefix of clear, read issue, newline, banner, spawn, wait; all six are made when the session ends normally |
| Getty.RoundFollowsFixedOrder | crochet-getty/src/bin/crochet-getty.rs:84-97 | a round's calls are always a prefix of the fixed nine-call order, with the descriptor, banner and child the system gave |
| Getty.RoundSplits | crochet-getty/src/bin/crochet-getty.rs:84-85 | a round's calls are those of `open_tty`, then the session's calls on the descriptor it opened, if it opened one |
| Getty.RoundGoesOnAfterNineCalls | crochet-getty/src/bin/crochet-getty.rs:84-97 | a round that goes on to the next has made all nine calls |
| Getty.SpawnOnlyAfterBanner | crochet-getty/src/bin/crochet-getty.rs:84-96 | login is spawned only as the eighth call, after open, chown, chmod, the clear sequence, the issue read, the newline and the banner all succeeded, with the tty as stdin, stdout and stderr |
| Getty.LoopReopensDevice | crochet-getty/src/bin/crochet-getty.rs:83-98 | after a round that goes on, the next round's first call reopens the same device |
| Getty.Host.constructor | crochet-getty/src/bin/crochet-getty.rs:79-80 | a fresh process has made no call yet |
| Getty.Host.OpenDevice | crochet-getty/src/bin/crochet-getty.rs:22-25 | records the open and returns what the system answers at that position |
| Getty.Host.SetOwner | crochet-getty/src/bin/crochet-getty.rs:28 | records the chown and returns `fchown`'s result under that position's C library |
| Getty.Host.SetMode | crochet-getty/src/bin/crochet-getty.rs:29 | records the chmod and returns `fchmod`'s result |
| Getty.Host.WriteText | crochet-getty/src/bin/crochet-getty.rs:89-90 | records the write and returns the system's answer |
| Getty.Host.GetIssue | crochet-getty/src/bin/crochet-getty.rs:74-77 | records the read of `/etc/issue` and returns its contents or the error |
| Getty.Host.Now | crochet-getty/src/bin/crochet-getty.rs:56-57 | the clock as the system shows it at this point of the trace |
| Getty.Host.SpawnLogin | crochet-getty/src/bin/crochet-getty.rs:91-95 | records the spawn of `/bin/login` with the tty as its three streams |
| Getty.Host.WaitChild | crochet-getty/src/bin/crochet-getty.rs:97 | records the wait on the child |
| Getty.Host.OpenTty | crochet-getty/src/bin/crochet-getty.rs:19-31 | appends exactly `OpenTtySpec`'s calls and returns its outcome |
| Getty.Host.ClearTty | crochet-getty/src/bin/crochet-getty.rs:33-36 | writes exactly the clear sequence, once |
| Getty.Host.ShowIssue | crochet-getty/src/bin/crochet-getty.rs:87-90 | appends exactly `IssueSpec`'s calls (clear, read, newline, rendered banner) and returns its outcome |
| Getty.Host.RunLogin | crochet-getty/src/bin/crochet-getty.rs:91-97 | appends exactly `LoginSpec`'s calls; a spawn failure panics and a wait error is returned |
| Getty.Host.Session | crochet-getty/src/bin/crochet-getty.rs:87-97 | appends exactly `SessionSpec`'s calls and returns its outcome |
| Getty.Host.LoopBody | crochet-getty/src/bin/crochet-getty.rs:84-97 | one iteration appends exactly `RoundSpec`'s calls and returns its outcome |
| Getty.Host.NextRound | crochet-getty/src/bin/crochet-getty.rs:84-97 | an iteration does what the given round function says the round at this position does |
| Getty.Host.RunRounds | crochet-getty/src/bin/crochet-getty.rs:83-98 | the loop appends exactly `Loop`'s calls for the given rounds and ends as it says |
| Getty.Host.Serve | crochet-getty/src/bin/crochet-getty.rs:83-98 | `main`'s loop, cut off after `rounds` rounds, appends exactly `LoopSpec`'s calls and returns its outcome |

## Left out

- The `Utmp` handle (crochet-utmp/src/lib.rs:132-165) is not modelled. Apart from the codec (`next` decodes with `Entry::from_raw`, and `put` encodes with `into_raw` and decodes the stored record with `from_raw`), `new`, `next`, `put` and `Drop` only call `setutxent`, `getutxent`, `pututxline` and `endutxent`. The cursor and matching rules of those calls live in the C library.
- The crate's tests are not modelled because they read the live utmp database. The 4-byte text of the `pollute` test appears in `Utmp.AsWrittenCopyOverreadsShortText`.
- crochet-utmp-sys/build.rs is not part of this model. It runs bindgen and holds no logic. The kind codes and field sizes it would generate are taken from glibc's x86-64 `<utmpx.h>`.
- The raw memory of the record is not modelled: field padding, `MaybeUninit`, and whether `c_char` is signed. Each `char` array is a sequence of bytes 0..255.
- The three texts of a `NewEntry` are given as their UTF-8 bytes. The `String`-to-bytes encoding is not modelled.
- The `raw` borrow inside `Entry`, and its lifetime, are not modelled.
- Utmp.FromRaw: the requires clauses demand a NUL before the end of `ut_host`. Without one, `CStr::from_ptr` would read on into `ut_exit`, `ut_session`, `ut_tv`, `ut_addr_v6` and the reserved bytes, which lie inside the record but are held as integers, not bytes, so their byte layout is not modelled. Reading from `ut_user` on into `ut_host` is captured by `Utmp.FromRawReadsPastUserField`.
- Utmp.FromRaw: `SystemTime::checked_add` is not modelled as failing. With a 32-bit `tv_sec` it cannot overflow, and the model's times are unbounded integers.
- Utmp.Encode uses the corrected copy length `min`. The copy as written is stated separately; see Findings.
- Utmp.IntoRaw copies with the corrected length `min`, not `len.max(31)`. The copy as written is stated by `Utmp.AsWrittenCopyInBounds`; see Findings.
- Getty.RenderIssue takes one clock reading for the whole banner. The source calls `Local::now()` again at every `\t`, so a banner with two `\t` may show two different times. Chrono's `%H:%M:%S` formatting is reduced to the clock string itself.
- Getty.Host.Serve runs `rounds` rounds. The source's `loop` never ends by itself; every finite prefix of it is covered.
- `open_streams` (crochet-getty/src/bin/crochet-getty.rs:38-41) is not modelled. Its three `Stdio::from_raw_fd` on one descriptor are recorded only as the three stream arguments of the spawn event. Ownership and closing of the descriptor are not modelled.
- Opening the device, writing, reading `/etc/issue`, spawning and waiting are operating-system calls. They are trace events whose results the injected `World` supplies. The file's contents and the child's exit status are not modelled.
- `getpwnam`, `getgrnam`, `libc::fchown`, `libc::fchmod` and `last_os_error` are foreign calls. They are the `Directory` maps, the `Libc` results and an errno value. An `io::Error` is its errno.
- Clap's `Options` parsing and the `eprintln!` of the arguments are not modelled. `baud` and `term_type` are never used by the loop, and the port is a parameter.
- A write error of `rendered` inside `render` (the `expect` calls at lines 58 and 62) is not modelled. Writing to a `String` cannot fail.

## Findings

| source | as written | input that shows it | evidently intended | confidence | as-written member | corrected member |
|---|---|---|---|---|---|---|
| crochet-utmp/src/lib.rs:79-93 | each text is copied with length `len.max(31)` | the text "test" (4 bytes) of the crate's own test: 31 bytes are copied, 27 of them from past the text, and 31 bytes are written into the 4-byte `ut_id` | `len.min(31)` for `ut_user` and `ut_line`, and at most 4 bytes for `ut_id` | not executed | Utmp.AsWrittenCopyOverreadsShortText | Utmp.IntoRaw |
| crochet-utmp/src/lib.rs:5-62 | `Ord` is derived, so it compares declaration order, while `PartialOrd` compares the glibc codes | OldTime and NewTime: the derived `cmp` gives Less, and `partial_cmp` gives `Some(Greater)` | `cmp` agreeing with `partial_cmp`, a total order on the codes | not executed | Utmp.DerivedCmpDisagreesWithPartialCmp | Utmp.CmpIsTotalOrder |
| crochet-utmp/src/lib.rs:116-117 | `CStr::from_ptr` on `ut_user` and `ut_line` reads until a NUL with no bound | a record whose `ut_user` holds 32 non-NUL bytes, which glibc allows and which the encoder as written produces for a 32-byte name: the user read runs on into `ut_host` | each text read bounded by its field | not executed | Utmp.FromRawReadsPastUserField | Utmp.FromRawBoundedAgrees |

The copy-length finding is also stated by `Utmp.AsWrittenCopyInBounds`, over every length. `Utmp.CopyLen` and `Utmp.RoundTrip` hold the corrected copy. `Utmp.AsWrittenFullNameLeavesNoTerminator` shows that the encoder as written produces the record of the third finding. The bounded decoder is `Utmp.FromRawBounded`.

The code inserts no space before the time (`Getty.WelcomeBanner`).
