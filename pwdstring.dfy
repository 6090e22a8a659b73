/**
 * processPwdString: decoding a password given as `file=<path>`,
 * `pass=<password>`, `fd=<descriptor>` or a bare password.
 */
module PwdString {
  import opened Wrappers
  import opened GoStrings
  import opened Host

  const FILE_PREFIX: Bytes := [102, 105, 108, 101, 61]  // "file="
  const PASS_PREFIX: Bytes := [112, 97, 115, 115, 61]  // "pass="
  const FD_PREFIX: Bytes := [102, 100, 61]  // "fd="

  /**
   * The password a password string stands for. The prefixes are tried in the
   * order file=, pass=, fd=; a string with none of them is the password.
   */
  function ProcessPwdString(env: Env, pwdString: Bytes): (r: Result<Bytes, Error>)
    ensures FD_PREFIX <= pwdString && r.Success? ==> 0 < |r.value| <= PWD_BUFFER_SIZE
    ensures r.Failure? ==> r.error.ReadFailed? || r.error.FdNotANumber? || r.error.FdInvalid? || r.error.FdReadFailed?
  {
    if FILE_PREFIX <= pwdString then
      assert FILE_PREFIX[1] != FD_PREFIX[1];
      ReadFile(env, pwdString[|FILE_PREFIX|..])
    else if PASS_PREFIX <= pwdString then
      assert PASS_PREFIX[0] != FD_PREFIX[0];
      Success(pwdString[|PASS_PREFIX|..])
    else if FD_PREFIX <= pwdString then
      var fdStr := pwdString[|FD_PREFIX|..];
      match Atoi(fdStr)
      case None => Failure(FdNotANumber(fdStr))
      case Some(fd) => if fd < 0 then Failure(FdInvalid(fdStr)) else ReadFd(env, fd)
    else
      Success(pwdString)
  }

  /** `pass=x` stands for exactly `x`, whatever `x` holds. */
  lemma InlinePassword(env: Env, x: Bytes)
    ensures ProcessPwdString(env, PASS_PREFIX + x) == Success(x)
  {
    var s := PASS_PREFIX + x;
    assert s[0] != FILE_PREFIX[0];
    assert s[|PASS_PREFIX|..] == x;
  }

  /** `file=p` stands for the contents of `p`, or fails as reading `p` fails. */
  lemma PasswordFile(env: Env, path: Bytes)
    ensures ProcessPwdString(env, FILE_PREFIX + path) == ReadFile(env, path)
  {
  }

  /** `fd=N` for a natural `N` in range stands for what one read of descriptor `N` gives. */
  lemma DescriptorPassword(env: Env, n: nat)
    requires n <= MAX_INT
    ensures ProcessPwdString(env, FD_PREFIX + Itoa(n)) == ReadFd(env, n)
  {
    var s := FD_PREFIX + Itoa(n);
    assert s[1] != FILE_PREFIX[1];
    assert s[0] != PASS_PREFIX[0];
    assert s[|FD_PREFIX|..] == Itoa(n);
    AtoiItoa(n);
  }

  /** `fd=s` where `s` is not an integer is an error, with no descriptor read. */
  lemma DescriptorNotANumber(env: Env, fdStr: Bytes)
    requires Atoi(fdStr) == None
    ensures ProcessPwdString(env, FD_PREFIX + fdStr) == Failure(FdNotANumber(fdStr))
  {
    var s := FD_PREFIX + fdStr;
    assert s[1] != FILE_PREFIX[1];
    assert s[0] != PASS_PREFIX[0];
    assert s[|FD_PREFIX|..] == fdStr;
  }

  /** `fd=-N` for a positive `N` names no descriptor. */
  lemma DescriptorNegative(env: Env, n: nat)
    requires 0 < n <= -MIN_INT
    ensures ProcessPwdString(env, FD_PREFIX + [MINUS] + Itoa(n)) == Failure(FdInvalid([MINUS] + Itoa(n)))
  {
    var s := FD_PREFIX + [MINUS] + Itoa(n);
    assert s[1] != FILE_PREFIX[1];
    assert s[0] != PASS_PREFIX[0];
    assert s[|FD_PREFIX|..] == [MINUS] + Itoa(n);
    AtoiNegative(n);
  }

  /**
   * A descriptor holding more than 64 bytes gives only its first 64: a longer
   * password is cut short without an error.
   */
  lemma DescriptorTruncates(env: Env, n: nat)
    requires n <= MAX_INT && n in env.fds && |env.fds[n]| > PWD_BUFFER_SIZE
    ensures ProcessPwdString(env, FD_PREFIX + Itoa(n)) == Success(env.fds[n][..PWD_BUFFER_SIZE])
  {
    DescriptorPassword(env, n);
  }

  /** A string without any of the three prefixes is the password itself. */
  lemma LiteralPassword(env: Env, s: Bytes)
    requires !(FILE_PREFIX <= s) && !(PASS_PREFIX <= s) && !(FD_PREFIX <= s)
    ensures ProcessPwdString(env, s) == Success(s)
  {
  }
}
