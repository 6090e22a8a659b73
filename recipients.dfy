/**
 * processRecipientKeys: sorting `<protocol>:<value>` recipient strings into
 * the six lists the encryption configuration is built from.
 */
module RecipientKeys {
  import opened Wrappers
  import opened GoStrings
  import opened Host
  import opened FirstFailure

  const PGP: Bytes := [112, 103, 112]  // "pgp"
  const JWE: Bytes := [106, 119, 101]  // "jwe"
  const PKCS7: Bytes := [112, 107, 99, 115, 55]  // "pkcs7"
  const PKCS11: Bytes := [112, 107, 99, 115, 49, 49]  // "pkcs11"
  const PROVIDER: Bytes := [112, 114, 111, 118, 105, 100, 101, 114]  // "provider"

  /** The list a recipient goes to. */
  datatype Kind = GpgRecipient | PublicKey | X509 | Pkcs11Pubkey | Pkcs11Yaml | KeyProvider

  /** A recipient that has been accepted: its list and the bytes appended to it. */
  datatype Routed = Routed(kind: Kind, data: Bytes)

  /** The six lists processRecipientKeys returns, in its order. */
  datatype Recipients = Recipients(
    gpgRecipients: seq<Bytes>,
    pubkeys: seq<Bytes>,
    x509s: seq<Bytes>,
    pkcs11Pubkeys: seq<Bytes>,
    pkcs11Yamls: seq<Bytes>,
    keyProviders: seq<Bytes>)
  {
    function List(k: Kind): seq<Bytes> {
      match k
      case GpgRecipient => gpgRecipients
      case PublicKey => pubkeys
      case X509 => x509s
      case Pkcs11Pubkey => pkcs11Pubkeys
      case Pkcs11Yaml => pkcs11Yamls
      case KeyProvider => keyProviders
    }

    /** These lists with `data` appended to the list of kind `k`. */
    function Add(k: Kind, data: Bytes): Recipients {
      match k
      case GpgRecipient => this.(gpgRecipients := gpgRecipients + [data])
      case PublicKey => this.(pubkeys := pubkeys + [data])
      case X509 => this.(x509s := x509s + [data])
      case Pkcs11Pubkey => this.(pkcs11Pubkeys := pkcs11Pubkeys + [data])
      case Pkcs11Yaml => this.(pkcs11Yamls := pkcs11Yamls + [data])
      case KeyProvider => this.(keyProviders := keyProviders + [data])
    }

    function TotalLength(): nat {
      |gpgRecipients| + |pubkeys| + |x509s| + |pkcs11Pubkeys| + |pkcs11Yamls| + |keyProviders|
    }
  }

  /** What an error return carries in place of the six lists: all nil. */
  const NO_RECIPIENTS := Recipients([], [], [], [], [], [])

  // ---------------------------------------------------------------------------
  // The reference definition, one recipient at a time

  /** Where one recipient goes: it is split at its first ':', then dispatched on the protocol. */
  function RouteRecipient(env: Env, cls: Classifiers, recipient: Bytes): (r: Result<Routed, Error>)
    ensures r == Failure(InvalidRecipientFormat) <==> COLON !in recipient
  {
    var idx := IndexByte(recipient, COLON);
    if idx < 0 then Failure(InvalidRecipientFormat)
    else Dispatch(env, cls, recipient[..idx], recipient[idx + 1..])
  }

  /** The switch on the protocol; jwe, pkcs7 and pkcs11 read the file that `value` names. */
  function Dispatch(env: Env, cls: Classifiers, protocol: Bytes, value: Bytes): (r: Result<Routed, Error>)
    ensures r.Failure? ==> r.error != InvalidRecipientFormat
    ensures r.Success? && (r.value.kind == GpgRecipient || r.value.kind == KeyProvider) ==> r.value.data == value
    ensures r.Success? && r.value.kind != GpgRecipient && r.value.kind != KeyProvider ==>
              value in env.files && r.value.data == env.files[value]
  {
    if protocol == PGP then
      Success(Routed(GpgRecipient, value))
    else if protocol == JWE then
      match ReadFile(env, value)
      case Failure(e) => Failure(e)
      case Success(tmp) =>
        if cls.isPublicKey(tmp) then Success(Routed(PublicKey, tmp)) else Failure(NotPublicKey)
    else if protocol == PKCS7 then
      match ReadFile(env, value)
      case Failure(e) => Failure(e)
      case Success(tmp) =>
        if cls.isCertificate(tmp) then Success(Routed(X509, tmp)) else Failure(NotX509Cert)
    else if protocol == PKCS11 then
      match ReadFile(env, value)
      case Failure(e) => Failure(e)
      case Success(tmp) =>
        if cls.isPkcs11PublicKey(tmp) then Success(Routed(Pkcs11Yaml, tmp))
        else if cls.isPublicKey(tmp) then Success(Routed(Pkcs11Pubkey, tmp))
        else Failure(NotPkcs11OrPublicKey)
    else if protocol == PROVIDER then
      Success(Routed(KeyProvider, value))
    else
      Failure(ProtocolNotRecognized)
  }

  /** RouteRecipient as a function value. */
  function Router(env: Env, cls: Classifiers): Bytes -> Result<Routed, Error> {
    r => RouteRecipient(env, cls, r)
  }

  /** All recipients routed in order, or the error of the first one that fails. */
  function RouteAll(env: Env, cls: Classifiers, recipients: seq<Bytes>): Result<seq<Routed>, Error> {
    MapAll(Router(env, cls), recipients)
  }

  /** The data of the routed recipients of kind `k`, in order. */
  function Pick(routed: seq<Routed>, k: Kind): seq<Bytes> {
    if routed == [] then []
    else
      var last := routed[|routed| - 1];
      Pick(routed[..|routed| - 1], k) + (if last.kind == k then [last.data] else [])
  }

  /** The six lists built from routed recipients. */
  function Sort(routed: seq<Routed>): Recipients {
    Recipients(Pick(routed, GpgRecipient), Pick(routed, PublicKey), Pick(routed, X509),
               Pick(routed, Pkcs11Pubkey), Pick(routed, Pkcs11Yaml), Pick(routed, KeyProvider))
  }

  /** How many recipients of the same kind come before the `i`-th. */
  function Rank(routed: seq<Routed>, i: nat): nat
    requires i < |routed|
  {
    |Pick(routed[..i], routed[i].kind)|
  }

  // ---------------------------------------------------------------------------
  // The loop

  /**
   * One pass of the loop body of processRecipientKeys: split at the first ':'
   * and switch on the protocol, reading the file for jwe, pkcs7 and pkcs11.
   */
  // The loop body is kept as a method beside RouteRecipient and Dispatch so
  // that the source's statements, early returns included, are verified too.
  method ParseRecipient(env: Env, cls: Classifiers, recipient: Bytes) returns (r: Result<Routed, Error>)
    ensures r == RouteRecipient(env, cls, recipient)
  {
    var idx := IndexByte(recipient, COLON);
    if idx < 0 {
      return Failure(InvalidRecipientFormat);
    }
    var protocol := recipient[..idx];
    var value := recipient[idx + 1..];
    if protocol == PGP {
      r := Success(Routed(GpgRecipient, value));
    } else if protocol == JWE {
      var tmp := ReadFile(env, value);
      if tmp.Failure? {
        return Failure(tmp.error);
      }
      if !cls.isPublicKey(tmp.value) {
        return Failure(NotPublicKey);
      }
      r := Success(Routed(PublicKey, tmp.value));
    } else if protocol == PKCS7 {
      var tmp := ReadFile(env, value);
      if tmp.Failure? {
        return Failure(tmp.error);
      }
      if !cls.isCertificate(tmp.value) {
        return Failure(NotX509Cert);
      }
      r := Success(Routed(X509, tmp.value));
    } else if protocol == PKCS11 {
      var tmp := ReadFile(env, value);
      if tmp.Failure? {
        return Failure(tmp.error);
      }
      if cls.isPkcs11PublicKey(tmp.value) {
        r := Success(Routed(Pkcs11Yaml, tmp.value));
      } else if cls.isPublicKey(tmp.value) {
        r := Success(Routed(Pkcs11Pubkey, tmp.value));
      } else {
        r := Failure(NotPkcs11OrPublicKey);
      }
    } else if protocol == PROVIDER {
      r := Success(Routed(KeyProvider, value));
    } else {
      r := Failure(ProtocolNotRecognized);
    }
  }

  /**
   * processRecipientKeys. It fails exactly when some recipient fails, with the
   * error of the first one that does, and then returns no list at all;
   * otherwise each list holds, in input order, the recipients routed to it,
   * and together the lists hold one entry per recipient.
   */
  method ProcessRecipientKeys(env: Env, cls: Classifiers, recipients: seq<Bytes>)
    returns (lists: Recipients, err: Option<Error>)
    ensures err.Some? ==> lists == NO_RECIPIENTS && RouteAll(env, cls, recipients) == Failure(err.value)
    ensures err.None? ==> RouteAll(env, cls, recipients).Success?
                          && lists == Sort(RouteAll(env, cls, recipients).value)
                          && lists.TotalLength() == |recipients|
  {
    lists := NO_RECIPIENTS;
    ghost var routed: seq<Routed> := [];
    var i := 0;
    while i < |recipients|
      invariant 0 <= i <= |recipients|
      invariant RouteAll(env, cls, recipients[..i]) == Success(routed)
      invariant lists == Sort(routed)
    {
      var r := ParseRecipient(env, cls, recipients[i]);
      if r.Failure? {
        RouteAllStops(env, cls, recipients, i, routed);
        return NO_RECIPIENTS, Some(r.error);
      }
      lists := lists.Add(r.value.kind, r.value.data);
      RouteAllExtends(env, cls, recipients, i, routed, r.value);
      routed := routed + [r.value];
      i := i + 1;
    }
    assert recipients[..i] == recipients;
    MapAllSucceeds(Router(env, cls), recipients);
    SortLengths(routed);
    err := None;
  }

  /** A recipient that is routed extends the routed prefix and its kind's list by one. */
  lemma RouteAllExtends(env: Env, cls: Classifiers, recipients: seq<Bytes>, i: nat, routed: seq<Routed>, x: Routed)
    requires i < |recipients| && RouteAll(env, cls, recipients[..i]) == Success(routed)
    requires RouteRecipient(env, cls, recipients[i]) == Success(x)
    ensures RouteAll(env, cls, recipients[..i + 1]) == Success(routed + [x])
    ensures Sort(routed + [x]) == Sort(routed).Add(x.kind, x.data)
  {
    assert Router(env, cls)(recipients[i]) == Success(x);
    ExtendsOnSuccess(Router(env, cls), recipients, i, routed);
    SortAppend(routed, x);
  }

  /** A recipient that fails after a routed prefix is the error of the whole list. */
  lemma RouteAllStops(env: Env, cls: Classifiers, recipients: seq<Bytes>, i: nat, routed: seq<Routed>)
    requires i < |recipients| && RouteAll(env, cls, recipients[..i]) == Success(routed)
    requires RouteRecipient(env, cls, recipients[i]).Failure?
    ensures RouteAll(env, cls, recipients) == Failure(RouteRecipient(env, cls, recipients[i]).error)
  {
    StopsAtFailure(Router(env, cls), recipients, i, routed);
  }

  // ---------------------------------------------------------------------------
  // All or nothing, first error wins

  /** The whole list is accepted exactly when every recipient is, each routed in place. */
  lemma RouteAllSucceeds(env: Env, cls: Classifiers, recipients: seq<Bytes>)
    ensures RouteAll(env, cls, recipients).Success?
            <==> forall i :: 0 <= i < |recipients| ==> RouteRecipient(env, cls, recipients[i]).Success?
    ensures RouteAll(env, cls, recipients).Success? ==>
              |RouteAll(env, cls, recipients).value| == |recipients|
              && forall i :: 0 <= i < |recipients| ==>
                   RouteAll(env, cls, recipients).value[i] == RouteRecipient(env, cls, recipients[i]).value
  {
    MapAllSucceeds(Router(env, cls), recipients);
  }

  /** One recipient without a ':' makes the whole call fail. */
  lemma MissingColonFailsAll(env: Env, cls: Classifiers, recipients: seq<Bytes>, i: nat)
    requires i < |recipients| && COLON !in recipients[i]
    ensures RouteAll(env, cls, recipients).Failure?
  {
    RouteAllSucceeds(env, cls, recipients);
  }

  // ---------------------------------------------------------------------------
  // One recipient

  /** A recipient is split at its first ':' only: the value keeps any later ':'. */
  lemma SplitsAtFirstColon(env: Env, cls: Classifiers, protocol: Bytes, value: Bytes)
    requires COLON !in protocol
    ensures RouteRecipient(env, cls, protocol + [COLON] + value) == Dispatch(env, cls, protocol, value)
  {
    var s := protocol + [COLON] + value;
    IndexByteAfter(protocol, COLON, value);
    assert s[..|protocol|] == protocol;
    assert s[|protocol| + 1..] == value;
  }

  /** `pgp:<id>` appends exactly `<id>`, whatever the files hold. */
  lemma PgpRecipientVerbatim(env: Env, cls: Classifiers, id: Bytes)
    ensures RouteRecipient(env, cls, PGP + [COLON] + id) == Success(Routed(GpgRecipient, id))
  {
    SplitsAtFirstColon(env, cls, PGP, id);
  }

  /** `provider:<spec>` appends exactly `<spec>`, whatever the files hold. */
  lemma ProviderRecipientVerbatim(env: Env, cls: Classifiers, spec: Bytes)
    ensures RouteRecipient(env, cls, PROVIDER + [COLON] + spec) == Success(Routed(KeyProvider, spec))
  {
    SplitsAtFirstColon(env, cls, PROVIDER, spec);
  }

  /** `jwe:<path>` fails unless `path` reads and holds a public key, which is then appended. */
  lemma JweRecipient(env: Env, cls: Classifiers, path: Bytes)
    ensures var r := RouteRecipient(env, cls, JWE + [COLON] + path);
      && (path !in env.files ==> r == Failure(ReadFailed(path)))
      && (path in env.files && !cls.isPublicKey(env.files[path]) ==> r == Failure(NotPublicKey))
      && (path in env.files && cls.isPublicKey(env.files[path]) ==> r == Success(Routed(PublicKey, env.files[path])))
      && (r.Success? ==> path in env.files && r.value == Routed(PublicKey, env.files[path]))
  {
    SplitsAtFirstColon(env, cls, JWE, path);
  }

  /** `pkcs7:<path>` fails unless `path` reads and holds a certificate, which is then appended. */
  lemma Pkcs7Recipient(env: Env, cls: Classifiers, path: Bytes)
    ensures var r := RouteRecipient(env, cls, PKCS7 + [COLON] + path);
      && (path !in env.files ==> r == Failure(ReadFailed(path)))
      && (path in env.files && !cls.isCertificate(env.files[path]) ==> r == Failure(NotX509Cert))
      && (path in env.files && cls.isCertificate(env.files[path]) ==> r == Success(Routed(X509, env.files[path])))
      && (r.Success? ==> path in env.files && r.value == Routed(X509, env.files[path]))
  {
    SplitsAtFirstColon(env, cls, PKCS7, path);
  }

  /**
   * `pkcs11:<path>` fails unless `path` reads; the PKCS11 YAML test comes
   * before the public-key test, so a file passing both is a YAML, and a file
   * passing neither is an error.
   */
  lemma Pkcs11Recipient(env: Env, cls: Classifiers, path: Bytes)
    ensures var r := RouteRecipient(env, cls, PKCS11 + [COLON] + path);
      && (path !in env.files ==> r == Failure(ReadFailed(path)))
      && (path in env.files ==> var data := env.files[path];
            && (cls.isPkcs11PublicKey(data) ==> r == Success(Routed(Pkcs11Yaml, data)))
            && (!cls.isPkcs11PublicKey(data) && cls.isPublicKey(data) ==> r == Success(Routed(Pkcs11Pubkey, data)))
            && (!cls.isPkcs11PublicKey(data) && !cls.isPublicKey(data) ==> r == Failure(NotPkcs11OrPublicKey)))
  {
    SplitsAtFirstColon(env, cls, PKCS11, path);
  }

  /** A protocol other than the five known ones is an error. */
  lemma UnknownProtocolRejected(env: Env, cls: Classifiers, protocol: Bytes, value: Bytes)
    requires COLON !in protocol
    requires protocol != PGP && protocol != JWE && protocol != PKCS7 && protocol != PKCS11 && protocol != PROVIDER
    ensures RouteRecipient(env, cls, protocol + [COLON] + value) == Failure(ProtocolNotRecognized)
  {
    SplitsAtFirstColon(env, cls, protocol, value);
  }

  // ---------------------------------------------------------------------------
  // Sorting into the six lists

  /** Picking from a concatenation picks from each part in turn. */
  lemma {:induction false} PickAppend(a: seq<Routed>, b: seq<Routed>, k: Kind)
    ensures Pick(a + b, k) == Pick(a, k) + Pick(b, k)
    decreases |b|
  {
    if b == [] {
      assert a + b == a;
    } else {
      var b' := b[..|b| - 1];
      assert (a + b)[..|a + b| - 1] == a + b';
      PickAppend(a, b', k);
    }
  }

  /** Routing one more recipient appends its data to its own kind's list. */
  lemma SortAppend(routed: seq<Routed>, x: Routed)
    ensures Sort(routed + [x]) == Sort(routed).Add(x.kind, x.data)
  {
    assert (routed + [x])[..|routed|] == routed;
  }

  /** The six lists together hold exactly one entry per routed recipient. */
  lemma {:induction false} SortLengths(routed: seq<Routed>)
    ensures Sort(routed).TotalLength() == |routed|
  {
    if routed != [] {
      SortLengths(routed[..|routed| - 1]);
    }
  }

  /** The `i`-th routed recipient sits in its own kind's list, at its rank. */
  lemma SortPlaces(routed: seq<Routed>, i: nat)
    requires i < |routed|
    ensures Rank(routed, i) < |Sort(routed).List(routed[i].kind)|
    ensures Sort(routed).List(routed[i].kind)[Rank(routed, i)] == routed[i].data
  {
    var k := routed[i].kind;
    assert routed == routed[..i] + ([routed[i]] + routed[i + 1..]);
    PickAppend(routed[..i], [routed[i]] + routed[i + 1..], k);
    PickAppend([routed[i]], routed[i + 1..], k);
    assert Pick([routed[i]], k) == Pick([], k) + [routed[i].data];
  }

  /** Recipients of one kind keep their input order in that kind's list. */
  lemma SortKeepsOrder(routed: seq<Routed>, i: nat, j: nat)
    requires i < j < |routed| && routed[i].kind == routed[j].kind
    ensures Rank(routed, i) < Rank(routed, j)
  {
    var k := routed[i].kind;
    assert routed[..j] == routed[..i] + ([routed[i]] + routed[i + 1..j]);
    PickAppend(routed[..i], [routed[i]] + routed[i + 1..j], k);
    PickAppend([routed[i]], routed[i + 1..j], k);
    assert Pick([routed[i]], k) == Pick([], k) + [routed[i].data];
  }
}
