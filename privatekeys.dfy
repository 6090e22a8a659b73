/**
 * processPrivateKeyFiles: sorting `<file>[:<password>]` and `provider:<spec>`
 * key specifications into the six lists decryption is configured from,
 * keeping each key next to its password.
 */
module PrivateKeyFiles {
  import opened Wrappers
  import opened GoStrings
  import opened Host
  import opened PwdString
  import opened FirstFailure

  const PROVIDER_PREFIX: Bytes := [112, 114, 111, 118, 105, 100, 101, 114, 58]  // "provider:"

  /** The list a key specification goes to. */
  datatype KeyKind = GpgSecretKeyRing | PrivateKey | Pkcs11Yaml | KeyProvider

  /** An accepted key specification: its list, the bytes appended, and the password decoded with it. */
  datatype KeyRoute = KeyRoute(kind: KeyKind, data: Bytes, password: Bytes)

  /** The six lists processPrivateKeyFiles returns, in its order. */
  datatype PrivateKeys = PrivateKeys(
    gpgSecretKeyRingFiles: seq<Bytes>,
    gpgSecretKeyPasswords: seq<Bytes>,
    privkeys: seq<Bytes>,
    privkeysPasswords: seq<Bytes>,
    pkcs11Yamls: seq<Bytes>,
    keyProviders: seq<Bytes>)
  {
    /** Each key list has one password per key. */
    predicate Paired() {
      |gpgSecretKeyRingFiles| == |gpgSecretKeyPasswords| && |privkeys| == |privkeysPasswords|
    }

    /** The lists with `route` added: a key ring or private key together with its password. */
    function Add(route: KeyRoute): PrivateKeys {
      match route.kind
      case GpgSecretKeyRing =>
        this.(gpgSecretKeyRingFiles := gpgSecretKeyRingFiles + [route.data],
              gpgSecretKeyPasswords := gpgSecretKeyPasswords + [route.password])
      case PrivateKey =>
        this.(privkeys := privkeys + [route.data], privkeysPasswords := privkeysPasswords + [route.password])
      case Pkcs11Yaml => this.(pkcs11Yamls := pkcs11Yamls + [route.data])
      case KeyProvider => this.(keyProviders := keyProviders + [route.data])
    }

    /** The number of keys, not counting passwords. */
    function KeyCount(): nat {
      |gpgSecretKeyRingFiles| + |privkeys| + |pkcs11Yamls| + |keyProviders|
    }
  }

  /** What an error return carries in place of the six lists: all nil. */
  const NO_PRIVATE_KEYS := PrivateKeys([], [], [], [], [], [])

  // ---------------------------------------------------------------------------
  // The reference definition, one key specification at a time

  /**
   * Reading a key file and classifying it with the password decoded for it:
   * a password error ends it at once; otherwise a PKCS11 key YAML comes
   * first, then a private key, then a GPG secret key ring.
   */
  function ClassifyKeyFile(env: Env, cls: Classifiers, keyfile: Bytes, password: Bytes): (r: Result<KeyRoute, Error>)
    ensures r.Success? ==> keyfile in env.files && r.value.data == env.files[keyfile]
    ensures r.Success? ==> r.value.password == password && r.value.kind != KeyProvider
    ensures r.Failure? ==> r.error == ReadFailed(keyfile) || r.error == WrongPassword || r.error == UnidentifiedPrivateKey(keyfile)
  {
    match ReadFile(env, keyfile)
    case Failure(e) => Failure(e)
    case Success(tmp) =>
      var probe := cls.isPrivateKey(tmp, password);
      if probe.passwordError then Failure(WrongPassword)
      else if cls.isPkcs11PrivateKey(tmp) then Success(KeyRoute(Pkcs11Yaml, tmp, password))
      else if probe.isKey then Success(KeyRoute(PrivateKey, tmp, password))
      else if cls.isGpgPrivateKeyRing(tmp) then Success(KeyRoute(GpgSecretKeyRing, tmp, password))
      else Failure(UnidentifiedPrivateKey(keyfile))
  }

  /**
   * Where one key specification goes. `provider:<spec>` is taken as it is.
   * Anything else is split at every ':'; only with exactly two parts is the
   * second decoded as a password, and the key file is always the first part.
   */
  function RouteKeyFile(env: Env, cls: Classifiers, keyfileAndPwd: Bytes): (r: Result<KeyRoute, Error>)
    ensures r.Success? && r.value.kind == KeyProvider <==> PROVIDER_PREFIX <= keyfileAndPwd
    ensures r.Success? && r.value.kind == KeyProvider ==> r.value.data == keyfileAndPwd[|PROVIDER_PREFIX|..]
    ensures r.Success? && r.value.kind == KeyProvider ==> r.value.password == []
  {
    if PROVIDER_PREFIX <= keyfileAndPwd then
      Success(KeyRoute(KeyProvider, keyfileAndPwd[|PROVIDER_PREFIX|..], []))
    else
      var parts := Split(keyfileAndPwd, COLON);
      if |parts| == 2 then
        match ProcessPwdString(env, parts[1])
        case Failure(e) => Failure(e)
        case Success(password) => ClassifyKeyFile(env, cls, parts[0], password)
      else
        ClassifyKeyFile(env, cls, parts[0], [])
  }

  /** RouteKeyFile as a function value. */
  function Router(env: Env, cls: Classifiers): Bytes -> Result<KeyRoute, Error> {
    spec => RouteKeyFile(env, cls, spec)
  }

  /** All key specifications routed in order, or the error of the first one that fails. */
  function RouteAllKeys(env: Env, cls: Classifiers, specs: seq<Bytes>): Result<seq<KeyRoute>, Error> {
    MapAll(Router(env, cls), specs)
  }

  /** The data of the routes of kind `k`, in order. */
  function PickData(routes: seq<KeyRoute>, k: KeyKind): seq<Bytes> {
    if routes == [] then []
    else
      var last := routes[|routes| - 1];
      PickData(routes[..|routes| - 1], k) + (if last.kind == k then [last.data] else [])
  }

  /** The passwords of the routes of kind `k`, in order. */
  function PickPasswords(routes: seq<KeyRoute>, k: KeyKind): seq<Bytes> {
    if routes == [] then []
    else
      var last := routes[|routes| - 1];
      PickPasswords(routes[..|routes| - 1], k) + (if last.kind == k then [last.password] else [])
  }

  /** The six lists built from routed key specifications. */
  function SortKeys(routes: seq<KeyRoute>): PrivateKeys {
    PrivateKeys(PickData(routes, GpgSecretKeyRing), PickPasswords(routes, GpgSecretKeyRing),
                PickData(routes, PrivateKey), PickPasswords(routes, PrivateKey),
                PickData(routes, Pkcs11Yaml), PickData(routes, KeyProvider))
  }

  /** How many routes of the same kind come before the `i`-th. */
  function Rank(routes: seq<KeyRoute>, i: nat): nat
    requires i < |routes|
  {
    |PickData(routes[..i], routes[i].kind)|
  }

  // ---------------------------------------------------------------------------
  // The loop

  /**
   * One pass of the loop body of processPrivateKeyFiles: a provider spec is
   * taken as it is; otherwise the password, if any, is decoded, then the key
   * file is read and classified.
   */
  // The loop body is kept as a method beside RouteKeyFile and ClassifyKeyFile
  // so that the source's statements, early returns included, are verified too.
  method ParseKeyFile(env: Env, cls: Classifiers, keyfileAndPwd: Bytes) returns (r: Result<KeyRoute, Error>)
    ensures r == RouteKeyFile(env, cls, keyfileAndPwd)
  {
    if PROVIDER_PREFIX <= keyfileAndPwd {
      return Success(KeyRoute(KeyProvider, keyfileAndPwd[|PROVIDER_PREFIX|..], []));
    }
    var password: Bytes := [];
    var parts := Split(keyfileAndPwd, COLON);
    if |parts| == 2 {
      var pwd := ProcessPwdString(env, parts[1]);
      if pwd.Failure? {
        return Failure(pwd.error);
      }
      password := pwd.value;
    }
    var keyfile := parts[0];
    var tmp := ReadFile(env, keyfile);
    if tmp.Failure? {
      return Failure(tmp.error);
    }
    var probe := cls.isPrivateKey(tmp.value, password);
    if probe.passwordError {
      return Failure(WrongPassword);
    }
    if cls.isPkcs11PrivateKey(tmp.value) {
      r := Success(KeyRoute(Pkcs11Yaml, tmp.value, password));
    } else if probe.isKey {
      r := Success(KeyRoute(PrivateKey, tmp.value, password));
    } else if cls.isGpgPrivateKeyRing(tmp.value) {
      r := Success(KeyRoute(GpgSecretKeyRing, tmp.value, password));
    } else {
      r := Failure(UnidentifiedPrivateKey(keyfile));
    }
  }

  /**
   * processPrivateKeyFiles. It fails exactly when some specification fails,
   * with the error of the first one that does, and then returns no list at
   * all; otherwise the lists hold the specifications sorted in input order,
   * one key per specification, each key list paired with its password list.
   */
  method ProcessPrivateKeyFiles(env: Env, cls: Classifiers, keyFilesAndPwds: seq<Bytes>)
    returns (keys: PrivateKeys, err: Option<Error>)
    ensures err.Some? ==> keys == NO_PRIVATE_KEYS && RouteAllKeys(env, cls, keyFilesAndPwds) == Failure(err.value)
    ensures err.None? ==> RouteAllKeys(env, cls, keyFilesAndPwds).Success?
                          && keys == SortKeys(RouteAllKeys(env, cls, keyFilesAndPwds).value)
                          && keys.Paired() && keys.KeyCount() == |keyFilesAndPwds|
  {
    keys := NO_PRIVATE_KEYS;
    ghost var routes: seq<KeyRoute> := [];
    var i := 0;
    while i < |keyFilesAndPwds|
      invariant 0 <= i <= |keyFilesAndPwds|
      invariant RouteAllKeys(env, cls, keyFilesAndPwds[..i]) == Success(routes)
      invariant keys == SortKeys(routes)
    {
      var r := ParseKeyFile(env, cls, keyFilesAndPwds[i]);
      if r.Failure? {
        RouteAllKeysStops(env, cls, keyFilesAndPwds, i, routes);
        return NO_PRIVATE_KEYS, Some(r.error);
      }
      keys := keys.Add(r.value);
      RouteAllKeysExtends(env, cls, keyFilesAndPwds, i, routes, r.value);
      routes := routes + [r.value];
      i := i + 1;
    }
    assert keyFilesAndPwds[..i] == keyFilesAndPwds;
    MapAllSucceeds(Router(env, cls), keyFilesAndPwds);
    SortKeysPaired(routes);
    SortKeysCount(routes);
    err := None;
  }

  // ---------------------------------------------------------------------------
  // All or nothing

  /** The whole list is accepted exactly when every specification is, each routed in place. */
  lemma RouteAllKeysSucceeds(env: Env, cls: Classifiers, specs: seq<Bytes>)
    ensures RouteAllKeys(env, cls, specs).Success?
            <==> forall i :: 0 <= i < |specs| ==> RouteKeyFile(env, cls, specs[i]).Success?
    ensures RouteAllKeys(env, cls, specs).Success? ==>
              |RouteAllKeys(env, cls, specs).value| == |specs|
              && forall i :: 0 <= i < |specs| ==>
                   RouteAllKeys(env, cls, specs).value[i] == RouteKeyFile(env, cls, specs[i]).value
  {
    MapAllSucceeds(Router(env, cls), specs);
  }

  /** A specification that is routed extends the routed prefix and its kind's lists by one. */
  lemma RouteAllKeysExtends(env: Env, cls: Classifiers, specs: seq<Bytes>, i: nat, routes: seq<KeyRoute>, x: KeyRoute)
    requires i < |specs| && RouteAllKeys(env, cls, specs[..i]) == Success(routes)
    requires RouteKeyFile(env, cls, specs[i]) == Success(x)
    ensures RouteAllKeys(env, cls, specs[..i + 1]) == Success(routes + [x])
    ensures SortKeys(routes + [x]) == SortKeys(routes).Add(x)
  {
    assert Router(env, cls)(specs[i]) == Success(x);
    ExtendsOnSuccess(Router(env, cls), specs, i, routes);
    SortKeysAppend(routes, x);
  }

  /** A specification that fails after a routed prefix is the error of the whole list. */
  lemma RouteAllKeysStops(env: Env, cls: Classifiers, specs: seq<Bytes>, i: nat, routes: seq<KeyRoute>)
    requires i < |specs| && RouteAllKeys(env, cls, specs[..i]) == Success(routes)
    requires RouteKeyFile(env, cls, specs[i]).Failure?
    ensures RouteAllKeys(env, cls, specs) == Failure(RouteKeyFile(env, cls, specs[i]).error)
  {
    StopsAtFailure(Router(env, cls), specs, i, routes);
  }

  // ---------------------------------------------------------------------------
  // One key specification

  /** `provider:<spec>` appends exactly `<spec>`, whatever the files and descriptors hold. */
  lemma ProviderKeyVerbatim(env: Env, cls: Classifiers, spec: Bytes)
    ensures RouteKeyFile(env, cls, PROVIDER_PREFIX + spec) == Success(KeyRoute(KeyProvider, spec, []))
  {
  }

  /** `<file>:<pwdspec>` with no other ':' decodes the password first, then classifies `<file>` with it. */
  lemma KeyFileWithPassword(env: Env, cls: Classifiers, file: Bytes, pwdSpec: Bytes)
    requires COLON !in file && COLON !in pwdSpec
    requires !(PROVIDER_PREFIX <= file + [COLON] + pwdSpec)
    ensures RouteKeyFile(env, cls, file + [COLON] + pwdSpec)
         == match ProcessPwdString(env, pwdSpec)
            case Failure(e) => Failure(e)
            case Success(password) => ClassifyKeyFile(env, cls, file, password)
  {
    SplitJoin([file, pwdSpec], COLON);
    assert Join([file, pwdSpec], COLON) == file + [COLON] + pwdSpec;
  }

  /** `<file>` with no ':' is classified with the empty password. */
  lemma KeyFileAlone(env: Env, cls: Classifiers, file: Bytes)
    requires COLON !in file && !(PROVIDER_PREFIX <= file)
    ensures RouteKeyFile(env, cls, file) == ClassifyKeyFile(env, cls, file, [])
  {
  }

  /**
   * With two or more ':' the text after the first is not decoded at all: the
   * key file is the text before the first ':' and the password is empty.
   */
  lemma ManyColonsDropPassword(env: Env, cls: Classifiers, file: Bytes, middle: Bytes, rest: Bytes)
    requires COLON !in file && COLON !in middle
    requires !(PROVIDER_PREFIX <= file + [COLON] + middle + [COLON] + rest)
    ensures RouteKeyFile(env, cls, file + [COLON] + middle + [COLON] + rest) == ClassifyKeyFile(env, cls, file, [])
  {
    var tail := middle + [COLON] + rest;
    assert file + [COLON] + middle + [COLON] + rest == file + [COLON] + tail;
    SplitAtFirst(file, COLON, tail);
    SplitAtFirst(middle, COLON, rest);
    var parts := Split(file + [COLON] + tail, COLON);
    assert parts == [file] + ([middle] + Split(rest, COLON));
    assert |parts| != 2 && parts[0] == file;
  }

  /** A password error ends the classification, even for a file every other test accepts. */
  lemma WrongPasswordFirst(env: Env, cls: Classifiers, keyfile: Bytes, password: Bytes)
    requires keyfile in env.files && cls.isPrivateKey(env.files[keyfile], password).passwordError
    ensures ClassifyKeyFile(env, cls, keyfile, password) == Failure(WrongPassword)
  {
  }

  /**
   * Without a password error, the tests are taken in the order PKCS11 key
   * YAML, private key, GPG key ring; a file passing none is unidentified.
   * The password travels with a private key or key ring.
   */
  lemma KeyFilePriority(env: Env, cls: Classifiers, keyfile: Bytes, password: Bytes)
    requires keyfile in env.files && !cls.isPrivateKey(env.files[keyfile], password).passwordError
    ensures var data := env.files[keyfile];
      var r := ClassifyKeyFile(env, cls, keyfile, password);
      var isKey := cls.isPrivateKey(data, password).isKey;
      && (cls.isPkcs11PrivateKey(data) ==> r == Success(KeyRoute(Pkcs11Yaml, data, password)))
      && (!cls.isPkcs11PrivateKey(data) && isKey ==> r == Success(KeyRoute(PrivateKey, data, password)))
      && (!cls.isPkcs11PrivateKey(data) && !isKey && cls.isGpgPrivateKeyRing(data) ==>
            r == Success(KeyRoute(GpgSecretKeyRing, data, password)))
      && (!cls.isPkcs11PrivateKey(data) && !isKey && !cls.isGpgPrivateKeyRing(data) ==>
            r == Failure(UnidentifiedPrivateKey(keyfile)))
  {
  }

  /** Every key other than a provider spec is the contents of the file before the first ':'. */
  lemma RoutedKeyIsFileContents(env: Env, cls: Classifiers, keyfileAndPwd: Bytes)
    requires RouteKeyFile(env, cls, keyfileAndPwd).Success?
    requires RouteKeyFile(env, cls, keyfileAndPwd).value.kind != KeyProvider
    ensures var keyfile := Split(keyfileAndPwd, COLON)[0];
      keyfile in env.files && RouteKeyFile(env, cls, keyfileAndPwd).value.data == env.files[keyfile]
      && COLON !in keyfile && keyfile <= keyfileAndPwd
  {
    SplitFirstIsPrefix(keyfileAndPwd, COLON);
    var parts := Split(keyfileAndPwd, COLON);
    var password := if |parts| == 2 then ProcessPwdString(env, parts[1]).value else [];
    assert RouteKeyFile(env, cls, keyfileAndPwd) == ClassifyKeyFile(env, cls, parts[0], password);
  }

  // ---------------------------------------------------------------------------
  // Sorting into the six lists

  /** Routing one more specification adds it, with its password, to its own kind's lists. */
  lemma SortKeysAppend(routes: seq<KeyRoute>, x: KeyRoute)
    ensures SortKeys(routes + [x]) == SortKeys(routes).Add(x)
  {
    assert (routes + [x])[..|routes|] == routes;
  }

  /** Every kind has as many passwords picked as data. */
  lemma {:induction false} PickPaired(routes: seq<KeyRoute>, k: KeyKind)
    ensures |PickPasswords(routes, k)| == |PickData(routes, k)|
  {
    if routes != [] {
      PickPaired(routes[..|routes| - 1], k);
    }
  }

  /** The key lists and their password lists always have equal lengths. */
  lemma SortKeysPaired(routes: seq<KeyRoute>)
    ensures SortKeys(routes).Paired()
  {
    PickPaired(routes, GpgSecretKeyRing);
    PickPaired(routes, PrivateKey);
  }

  /** The lists together hold exactly one key per routed specification. */
  lemma {:induction false} SortKeysCount(routes: seq<KeyRoute>)
    ensures SortKeys(routes).KeyCount() == |routes|
  {
    if routes != [] {
      SortKeysCount(routes[..|routes| - 1]);
    }
  }

  /** Picking from a concatenation picks from each part in turn. */
  lemma {:induction false} PickAppend(a: seq<KeyRoute>, b: seq<KeyRoute>, k: KeyKind)
    ensures PickData(a + b, k) == PickData(a, k) + PickData(b, k)
    ensures PickPasswords(a + b, k) == PickPasswords(a, k) + PickPasswords(b, k)
    decreases |b|
  {
    if b == [] {
      assert a + b == a;
    } else {
      var b' := b[..|b| - 1];
      assert (a + b)[..|a + b| - 1] == a + b';
      PickAppend(a, b', k);
    }
  }

  /**
   * The `i`-th routed specification sits at its rank in its own kind's list,
   * and a key ring or private key has its own password at the same index of
   * the matching password list.
   */
  lemma SortKeysAligned(routes: seq<KeyRoute>, i: nat)
    requires i < |routes|
    ensures var k := routes[i].kind;
      && Rank(routes, i) < |PickData(routes, k)| && PickData(routes, k)[Rank(routes, i)] == routes[i].data
      && Rank(routes, i) < |PickPasswords(routes, k)| && PickPasswords(routes, k)[Rank(routes, i)] == routes[i].password
  {
    var k := routes[i].kind;
    assert routes == routes[..i] + ([routes[i]] + routes[i + 1..]);
    PickAppend(routes[..i], [routes[i]] + routes[i + 1..], k);
    PickAppend([routes[i]], routes[i + 1..], k);
    PickPaired(routes[..i], k);
    assert PickData([routes[i]], k) == PickData([], k) + [routes[i].data];
    assert PickPasswords([routes[i]], k) == PickPasswords([], k) + [routes[i].password];
  }

  /** Specifications of one kind keep their input order in that kind's list. */
  lemma SortKeysKeepsOrder(routes: seq<KeyRoute>, i: nat, j: nat)
    requires i < j < |routes| && routes[i].kind == routes[j].kind
    ensures Rank(routes, i) < Rank(routes, j)
  {
    var k := routes[i].kind;
    assert routes[..j] == routes[..i] + ([routes[i]] + routes[i + 1..j]);
    PickAppend(routes[..i], [routes[i]] + routes[i + 1..j], k);
    PickAppend([routes[i]], routes[i + 1..j], k);
    assert PickData([routes[i]], k) == PickData([], k) + [routes[i].data];
  }
}
