/**
 * The privileged syscall facade of crochet-getty-sys: the `-1`-means-error
 * normaliser `c`, and `fchown`/`fchmod` built on it.
 *
 * The foreign calls are parameters: `getpwnam`/`getgrnam` become lookups in
 * the passwd and group directories, and `libc::fchown`/`libc::fchmod`
 * become a `Libc` value holding their results and the `errno` that
 * `last_os_error` then reads.
 */
module GettySys {
  import opened Wrappers

  type CInt = x: int | -0x8000_0000 <= x < 0x8000_0000

  const NUL: char := 0 as char

  /** `std::io::Error::last_os_error()`: the OS error number. */
  datatype IoError = IoError(errno: int)

  datatype ChownError = BadUser | BadGroup | IO(err: IoError)

  /** The fields of `struct passwd` and `struct group` that are used. */
  datatype Passwd = Passwd(pwUid: int)
  datatype Group = Group(grGid: int)

  /** The account directories `getpwnam` and `getgrnam` search. */
  datatype Directory = Directory(passwd: map<string, Passwd>, groups: map<string, Group>)

  /** What the C library answers: the return of each call, and errno after it. */
  datatype Libc = Libc(fchown: (int, int, int) -> CInt, fchmod: (int, int) -> CInt, errno: int)

  /** `c`: -1 is an error carrying errno; every other value, negative or not, is success. */
  function C(ret: CInt, errno: int): (r: Result<CInt, IoError>)
    ensures r.Err? <==> ret == -1
    ensures r.Err? ==> r.error == IoError(errno)
    ensures r.Ok? ==> r.value == ret
  {
    if ret == -1 then Err(IoError(errno)) else Ok(ret)
  }

  /** `CString::new` accepts exactly the texts without an interior NUL. */
  predicate CStringOk(s: string)
  {
    NUL !in s
  }

  /**
   * `fchown(fd, user, group)`: the first failing check, in the order user
   * text, group text, user lookup, group lookup, then the call itself with
   * the resolved uid and gid.
   */
  function Fchown(fd: int, user: string, group: string, dir: Directory, libc: Libc): (r: Result<(), ChownError>)
    ensures r == Err(BadUser) <==> !CStringOk(user) || (CStringOk(group) && user !in dir.passwd)
    ensures r == Err(BadGroup) <==>
      CStringOk(user) && (!CStringOk(group) || (user in dir.passwd && group !in dir.groups))
    ensures r.Err? && r.error.IO? <==>
      && CStringOk(user) && CStringOk(group) && user in dir.passwd && group in dir.groups
      && libc.fchown(fd, dir.passwd[user].pwUid, dir.groups[group].grGid) == -1
    ensures r.Err? && r.error.IO? ==> r.error.err == IoError(libc.errno)
  {
    if !CStringOk(user) then Err(BadUser)
    else if !CStringOk(group) then Err(BadGroup)
    else if user !in dir.passwd then Err(BadUser)
    else if group !in dir.groups then Err(BadGroup)
    else
      match C(libc.fchown(fd, dir.passwd[user].pwUid, dir.groups[group].grGid), libc.errno)
      case Ok(_) => Ok(())
      case Err(e) => Err(IO(e))
  }

  /** Ownership changes exactly when both names are clean and resolve and the call does not return -1. */
  lemma FchownOkIff(fd: int, user: string, group: string, dir: Directory, libc: Libc)
    ensures Fchown(fd, user, group, dir, libc).Ok? <==>
      && CStringOk(user) && CStringOk(group) && user in dir.passwd && group in dir.groups
      && libc.fchown(fd, dir.passwd[user].pwUid, dir.groups[group].grGid) != -1
  {
  }

  /**
   * The order of the checks decides the error when both names are bad: a
   * user text with a NUL beats any group problem, an unknown user beats an
   * unknown group, but a group text with a NUL beats an unknown user.
   */
  lemma ChownCheckOrder(fd: int, user: string, group: string, dir: Directory, libc: Libc)
    ensures !CStringOk(user) ==> Fchown(fd, user, group, dir, libc) == Err(BadUser)
    ensures CStringOk(user) && !CStringOk(group) ==> Fchown(fd, user, group, dir, libc) == Err(BadGroup)
    ensures CStringOk(user) && CStringOk(group) && user !in dir.passwd ==> Fchown(fd, user, group, dir, libc) == Err(BadUser)
  {
  }

  /**
   * `libc::fchown` is consulted only when both names resolve: otherwise
   * the outcome is the same whatever the C library would answer.
   */
  lemma FchownCallsLibcOnlyWhenResolved(fd: int, user: string, group: string, dir: Directory, l1: Libc, l2: Libc)
    requires !(CStringOk(user) && CStringOk(group) && user in dir.passwd && group in dir.groups)
    ensures Fchown(fd, user, group, dir, l1) == Fchown(fd, user, group, dir, l2)
    ensures Fchown(fd, user, group, dir, l1).Err? && !Fchown(fd, user, group, dir, l1).error.IO?
  {
  }

  /** `fchmod(fd, mode)`: success iff `libc::fchmod` does not return -1. */
  function Fchmod(fd: int, mode: int, libc: Libc): (r: Result<(), IoError>)
    ensures r.Ok? <==> libc.fchmod(fd, mode) != -1
    ensures r.Err? ==> r.error == IoError(libc.errno)
  {
    match C(libc.fchmod(fd, mode), libc.errno)
    case Ok(_) => Ok(())
    case Err(e) => Err(e)
  }
}
