/**
 * What the parse helpers take from outside: the files they read, the file
 * descriptors a password may come from, the key-format tests of the
 * encryption library, and the errors they report.
 */
module Host {
  import opened Wrappers
  import opened GoStrings

  /** The ways the parse helpers fail. Message wording is not modelled. */
  datatype Error =
    | InvalidRecipientFormat            // a recipient without ':'
    | ProtocolNotRecognized             // a recipient protocol other than the five known ones
    | ReadFailed(path: Bytes)           // os.ReadFile of `path` failed
    | NotPublicKey                      // a jwe: file that is not a public key
    | NotX509Cert                       // a pkcs7: file that is not a certificate
    | NotPkcs11OrPublicKey              // a pkcs11: file that is neither a PKCS11 key YAML nor a public key
    | FdNotANumber(fdStr: Bytes)        // fd=<fdStr> where fdStr does not parse as an int
    | FdInvalid(fdStr: Bytes)           // fd=<fdStr> naming no descriptor (os.NewFile gave nil)
    | FdReadFailed                      // reading the descriptor failed
    | WrongPassword                     // the key test reported a password error
    | UnidentifiedPrivateKey(keyfile: Bytes)

  /**
   * The world as the helpers see it. `files` maps each readable path to its
   * contents; a path not in it fails to read. `fds` maps each open descriptor
   * to the bytes pending on it, of which one read delivers at most 64; a
   * descriptor not in it, or with nothing pending (end of file), fails to read.
   */
  datatype Env = Env(files: map<Bytes, Bytes>, fds: map<nat, Bytes>)

  /** The size of the buffer a descriptor password is read into. */
  const PWD_BUFFER_SIZE: nat := 64

  /** os.ReadFile. */
  function ReadFile(env: Env, path: Bytes): (r: Result<Bytes, Error>)
    ensures r.Success? <==> path in env.files
    ensures r.Success? ==> r.value == env.files[path]
    ensures r.Failure? ==> r.error == ReadFailed(path)
  {
    if path in env.files then Success(env.files[path]) else Failure(ReadFailed(path))
  }

  /**
   * One Read of a descriptor into a 64-byte buffer: a non-empty prefix of what
   * the descriptor holds, of at most 64 bytes, and all of it when it fits.
   */
  function ReadFd(env: Env, fd: nat): (r: Result<Bytes, Error>)
    ensures r.Success? ==> fd in env.fds && 0 < |r.value| <= PWD_BUFFER_SIZE && r.value <= env.fds[fd]
    ensures r.Success? && |env.fds[fd]| <= PWD_BUFFER_SIZE ==> r.value == env.fds[fd]
    ensures r.Failure? <==> fd !in env.fds || env.fds[fd] == []
  {
    if fd !in env.fds || |env.fds[fd]| == 0 then Failure(FdReadFailed)
    else
      var pending := env.fds[fd];
      Success(if |pending| <= PWD_BUFFER_SIZE then pending else pending[..PWD_BUFFER_SIZE])
  }

  /**
   * What encutils.IsPrivateKey(data, password) reports, together with
   * whether its error is one encutils.IsPasswordError accepts.
   */
  datatype PrivateKeyProbe = PrivateKeyProbe(isKey: bool, passwordError: bool)

  /** The key-format tests of the encryption library, left uninterpreted. */
  datatype Classifiers = Classifiers(
    isPublicKey: Bytes -> bool,
    isCertificate: Bytes -> bool,
    isPkcs11PublicKey: Bytes -> bool,
    isPrivateKey: (Bytes, Bytes) -> PrivateKeyProbe,
    isPkcs11PrivateKey: Bytes -> bool,
    isGpgPrivateKeyRing: Bytes -> bool)
}
