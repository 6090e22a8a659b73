# parsehelpers: recipient, password and private-key parsing

A Dafny model of the three parse helpers of `images/encryption/parsehelpers`.
They turn command-line strings into the lists an image encryption or
decryption configuration is built from.

- **processRecipientKeys** takes recipients of the form `<protocol>:<value>`.
  It splits each one at its first `:`. The protocol decides which of six lists
  gets the entry:
  - `pgp` and `provider` append the value itself;
  - `jwe`, `pkcs7` and `pkcs11` read the file the value names and append its
    contents, once the key-format test for that protocol accepts them.
- **processPwdString** decodes a password given as `file=<path>`,
  `pass=<password>`, `fd=<descriptor>` or a bare password.
- **processPrivateKeyFiles** takes key specifications:
  - for `provider:<spec>`, `<spec>` is appended as it is;
  - `<file>[:<password>]` is split at every `:`, and only when there are exactly
    two parts is the second one decoded as a password;
  - without a password error, the file is then classified as a PKCS11 key YAML,
    a private key or a GPG secret key ring, in that order, and appended to its
    list together with its password.

Both loops fail as a whole on the first item that fails and then return no
list at all.

How the model is built:

- **One item at a time.** A reference function states where one item goes:
  `RouteRecipient` / `Dispatch` for recipients, `RouteKeyFile` /
  `ClassifyKeyFile` for key specifications.
- **The whole list.** `FirstFailure.MapAll` lifts that function to a list: it
  gives every item's result in order, or the error of the first item that
  fails.
- **The six lists.** `Sort` and `SortKeys` build the six lists from the routed
  items by filtering them per kind.
- **The methods.** They run the loops of the source. Each loop body is a method
  of its own (`ParseRecipient`, `ParseKeyFile`) that keeps the source's branches
  and is proved equal to the reference function. Each loop is proved to return
  the sorted lists, or no lists together with the first error.
- **Their properties.** The sorting is proved to place each item at its rank,
  to keep input order within a kind, and to keep every password at the index
  of its key.

Strings are byte sequences, as Go strings are. The world outside is a value
(`Host.Env`):
- a map from readable paths to their contents;
- a map from open descriptors to the bytes pending on them; one read delivers at most 64 of those bytes.

The key-format tests of the encryption library (`encutils.IsPublicKey`,
`IsCertificate`, `IsPkcs11PublicKey`, `IsPrivateKey`, `IsPasswordError`,
`IsPkcs11PrivateKey`, `IsGPGPrivateKeyRing`) are left uninterpreted: they are
the fields of `Host.Classifiers`. `IsPrivateKey` and `IsPasswordError` on its
error are combined into one `PrivateKeyProbe`.

The comment above processPrivateKeyFiles lists a `keyprovider:<...>` form, but
the code tests for the prefix `provider:` and drops its 9 bytes. The model
follows the code (`PrivateKeyFiles.PROVIDER_PREFIX`).

Behaviours of the code that the model makes visible:

- In a key specification with two or more `:`, the text after the first `:` is
  ignored and the key is read without a password
  (`ManyColonsDropPassword`).
- A descriptor password longer than 64 bytes is cut to its first 64 bytes
  without an error (`DescriptorTruncates`).

## Model

| member | source | states |
|---|---|---|
| RecipientKeys.ProcessRecipientKeys | images/encryption/parsehelpers/parsehelpers.go:46-111 | On error all six lists are empty and the error is that of the first recipient that fails; otherwise the lists are the recipients sorted by kind in input order, one entry per recipient |
| RecipientKeys.ParseRecipient | images/encryption/parsehelpers/parsehelpers.go:58-108 | The loop body (split at the first ':', switch on the protocol, read and test the file) gives exactly the reference routing of that recipient |
| RecipientKeys.RouteRecipient | images/encryption/parsehelpers/parsehelpers.go:58-107 | Where one recipient goes: it fails with the invalid-format error exactly when it holds no ':' |
| RecipientKeys.Dispatch | images/encryption/parsehelpers/parsehelpers.go:66-107 | The switch on the protocol never reports a missing ':'; a pgp or provider entry is the value itself, and any other accepted entry is the contents of the file the value names |
| RecipientKeys.RouteAllSucceeds | images/encryption/parsehelpers/parsehelpers.go:56-110 | The recipients are accepted exactly when every one of them is, and then each one's result is kept, in place |
| RecipientKeys.RouteAllExtends | images/encryption/parsehelpers/parsehelpers.go:56-109 | A recipient that is accepted extends the processed prefix by its result and appends its data to its own kind's list |
| RecipientKeys.RouteAllStops | images/encryption/parsehelpers/parsehelpers.go:56-107 | A recipient that fails after an accepted prefix makes the whole call fail with its error |
| RecipientKeys.MissingColonFailsAll | images/encryption/parsehelpers/parsehelpers.go:58-61 | One recipient without ':' makes the whole call fail |
| RecipientKeys.SplitsAtFirstColon | images/encryption/parsehelpers/parsehelpers.go:58-64 | The protocol is the text before the first ':' and the value is everything after it, including any later ':' |
| RecipientKeys.PgpRecipientVerbatim | images/encryption/parsehelpers/parsehelpers.go:67-68 | `pgp:<id>` appends exactly `<id>` to the GPG recipients, whatever the files hold |
| RecipientKeys.JweRecipient | images/encryption/parsehelpers/parsehelpers.go:70-78 | `jwe:<path>` fails if the path does not read or is not a public key; a readable public-key file is accepted, and an accepted one puts the file contents into the public keys |
| RecipientKeys.Pkcs7Recipient | images/encryption/parsehelpers/parsehelpers.go:80-88 | `pkcs7:<path>` fails if the path does not read or is not a certificate; a readable certificate file is accepted, and an accepted one puts the file contents into the x509 list |
| RecipientKeys.Pkcs11Recipient | images/encryption/parsehelpers/parsehelpers.go:90-101 | `pkcs11:<path>` fails if the path does not read; the PKCS11 YAML test wins over the public-key test; a file passing neither is an error |
| RecipientKeys.ProviderRecipientVerbatim | images/encryption/parsehelpers/parsehelpers.go:103-104 | `provider:<spec>` appends exactly `<spec>` to the key providers |
| RecipientKeys.UnknownProtocolRejected | images/encryption/parsehelpers/parsehelpers.go:106-107 | Any protocol other than the five known ones is an error |
| RecipientKeys.SortAppend | images/encryption/parsehelpers/parsehelpers.go:68-104 | Sorting one more routed recipient appends its data to its own kind's list and leaves the other five unchanged |
| RecipientKeys.PickAppend | images/encryption/parsehelpers/parsehelpers.go:56-109 | Filtering a concatenation by kind filters each part in turn |
| RecipientKeys.SortLengths | images/encryption/parsehelpers/parsehelpers.go:110 | The six lists together hold exactly one entry per recipient |
| RecipientKeys.SortPlaces | images/encryption/parsehelpers/parsehelpers.go:68-104 | Each recipient's data sits in its own kind's list at the index given by how many of that kind came before it |
| RecipientKeys.SortKeepsOrder | images/encryption/parsehelpers/parsehelpers.go:56-109 | Two recipients of the same kind appear in their list in input order |
| PwdString.ProcessPwdString | images/encryption/parsehelpers/parsehelpers.go:118-142 | An `fd=` password that is accepted holds 1 to 64 bytes; the only errors are a failed file read, an unparsable or invalid descriptor, and a failed descriptor read |
| PwdString.InlinePassword | images/encryption/parsehelpers/parsehelpers.go:121-122 | `pass=x` decodes to exactly `x` |
| PwdString.PasswordFile | images/encryption/parsehelpers/parsehelpers.go:119-120 | `file=p` decodes to the contents of `p`, and fails when `p` does not read |
| PwdString.DescriptorPassword | images/encryption/parsehelpers/parsehelpers.go:123-139 | `fd=N`, for the decimal form of a non-negative int N, decodes to what one 64-byte read of descriptor N delivers |
| PwdString.DescriptorNotANumber | images/encryption/parsehelpers/parsehelpers.go:124-128 | `fd=s`, where s does not parse as an int, fails with s named, and no descriptor is read |
| PwdString.DescriptorNegative | images/encryption/parsehelpers/parsehelpers.go:129-132 | `fd=-N` with N > 0 names no descriptor and fails |
| PwdString.DescriptorTruncates | images/encryption/parsehelpers/parsehelpers.go:134-139 | A descriptor holding more than 64 bytes decodes to its first 64 bytes, without an error |
| PwdString.LiteralPassword | images/encryption/parsehelpers/parsehelpers.go:141 | A string with none of the three prefixes is the password itself |
| Host.ReadFile | images/encryption/parsehelpers/parsehelpers.go:181-184 | os.ReadFile (also at lines 71, 81, 91 and 120): succeeds exactly on a readable path, giving its contents, and otherwise fails naming the path |
| Host.ReadFd | images/encryption/parsehelpers/parsehelpers.go:134-139 | One read returns a non-empty prefix of the pending bytes, at most 64 long and all of them when they fit; it fails exactly when the descriptor is not open or has nothing to deliver |
| GoStrings.IndexByte | images/encryption/parsehelpers/parsehelpers.go:58 | strings.Index with one byte: -1 exactly when the byte is absent, otherwise the index of its first occurrence |
| GoStrings.IndexByteAfter | images/encryption/parsehelpers/parsehelpers.go:58 | In `a + [c] + b` with no `c` in `a`, the first `c` comes right after `a` |
| GoStrings.Split | images/encryption/parsehelpers/parsehelpers.go:172 | strings.Split with a one-byte separator always gives at least one piece (what the pieces are is stated by the Split lemmas below) |
| GoStrings.SplitPiecesFree | images/encryption/parsehelpers/parsehelpers.go:172 | No piece produced by strings.Split contains the separator |
| GoStrings.SplitJoinsBack | images/encryption/parsehelpers/parsehelpers.go:172 | Joining the pieces of strings.Split with the separator gives the original string back |
| GoStrings.SplitJoin | images/encryption/parsehelpers/parsehelpers.go:172 | Splitting a join of separator-free parts gives back exactly those parts |
| GoStrings.SplitAtFirst | images/encryption/parsehelpers/parsehelpers.go:172 | Splitting `a:b` with no ':' in `a` gives `a` followed by the pieces of `b` |
| GoStrings.SplitFirstIsPrefix | images/encryption/parsehelpers/parsehelpers.go:172-180 | The key file part is a separator-free prefix of the specification, exactly as long as the text before the first ':' |
| GoStrings.Atoi | images/encryption/parsehelpers/parsehelpers.go:125 | strconv.Atoi: a parsed value lies in the range of a 64-bit int, and the empty string never parses (its other cases are the Atoi lemmas below) |
| GoStrings.AtoiItoa | images/encryption/parsehelpers/parsehelpers.go:125 | strconv.Atoi reads the decimal form of every non-negative 64-bit int back |
| GoStrings.AtoiNegative | images/encryption/parsehelpers/parsehelpers.go:125 | strconv.Atoi reads `-` followed by a decimal form as the negative number, down to the least 64-bit int |
| GoStrings.AtoiRejectsNonDigit | images/encryption/parsehelpers/parsehelpers.go:125-128 | strconv.Atoi rejects any string holding a byte that is neither a digit nor a leading sign |
| GoStrings.DecimalRoundTrip | images/encryption/parsehelpers/parsehelpers.go:125 | The value of a natural's decimal form is that natural |
| FirstFailure.MapAllSucceeds | images/encryption/parsehelpers/parsehelpers.go:164-201 | In both loops (lines 56-110 and 164-201): processing a list until the first error succeeds exactly when every item does, and then keeps every item's result in place |
| FirstFailure.ExtendsOnSuccess | images/encryption/parsehelpers/parsehelpers.go:164-201 | In both loops (lines 56-110 and 164-201): an item that succeeds extends the processed prefix by its result |
| FirstFailure.PrefixFailureStands | images/encryption/parsehelpers/parsehelpers.go:164-201 | In both loops (lines 56-110 and 164-201): once a prefix fails, later items do not change the error |
| FirstFailure.StopsAtFailure | images/encryption/parsehelpers/parsehelpers.go:164-201 | In both loops (lines 56-110 and 164-201): after a successful prefix, the first item that fails decides the error of the whole list |
| PrivateKeyFiles.ProcessPrivateKeyFiles | images/encryption/parsehelpers/parsehelpers.go:153-203 | On error all six lists are empty and the error is that of the first specification that fails; otherwise the lists are the specifications sorted by kind in input order, each key list as long as its password list, one key per specification |
| PrivateKeyFiles.ParseKeyFile | images/encryption/parsehelpers/parsehelpers.go:165-200 | The loop body (provider prefix, split, decode the password, read, test for a password error, classify) gives exactly the reference routing of that specification |
| PrivateKeyFiles.RouteKeyFile | images/encryption/parsehelpers/parsehelpers.go:165-200 | Where one key specification goes: it is a key provider exactly when it starts with `provider:`, and then it is the text after that prefix, with no password |
| PrivateKeyFiles.ClassifyKeyFile | images/encryption/parsehelpers/parsehelpers.go:180-200 | A classified key file is readable, its data is its contents, it carries the password it was classified with and is never a provider; it fails only on a failed read, a password error or an unidentified key |
| PrivateKeyFiles.RouteAllKeysSucceeds | images/encryption/parsehelpers/parsehelpers.go:164-201 | The specifications are accepted exactly when every one of them is, and then each one's result is kept, in place |
| PrivateKeyFiles.RouteAllKeysExtends | images/encryption/parsehelpers/parsehelpers.go:164-201 | A specification that is accepted extends the processed prefix by its result and adds it, with its password, to its own kind's lists |
| PrivateKeyFiles.RouteAllKeysStops | images/encryption/parsehelpers/parsehelpers.go:164-200 | A specification that fails after an accepted prefix makes the whole call fail with its error |
| PrivateKeyFiles.ProviderKeyVerbatim | images/encryption/parsehelpers/parsehelpers.go:168-171 | `provider:<spec>` appends exactly `<spec>` to the key providers, whatever the files and descriptors hold |
| PrivateKeyFiles.KeyFileWithPassword | images/encryption/parsehelpers/parsehelpers.go:172-185 | `<file>:<pwdspec>` with no other ':' decodes the password first (its error stops everything) and classifies `<file>` with it |
| PrivateKeyFiles.KeyFileAlone | images/encryption/parsehelpers/parsehelpers.go:165-185 | `<file>` with no ':' is classified with the empty password |
| PrivateKeyFiles.ManyColonsDropPassword | images/encryption/parsehelpers/parsehelpers.go:172-180 | With two or more ':' nothing after the first is decoded: the key file is the text before the first ':' and the password is empty |
| PrivateKeyFiles.WrongPasswordFirst | images/encryption/parsehelpers/parsehelpers.go:185-188 | A password error ends the classification, even for a file that another test accepts |
| PrivateKeyFiles.KeyFilePriority | images/encryption/parsehelpers/parsehelpers.go:190-200 | Without a password error the tests are tried in the order PKCS11 key YAML, private key, GPG key ring; a file passing none is unidentified; the password goes with a private key or key ring |
| PrivateKeyFiles.RoutedKeyIsFileContents | images/encryption/parsehelpers/parsehelpers.go:172-197 | Every accepted key other than a provider spec is the contents of the file named before the first ':' |
| PrivateKeyFiles.SortKeysAppend | images/encryption/parsehelpers/parsehelpers.go:169-197 | Sorting one more routed specification appends it, and its password, to its own kind's lists only |
| PrivateKeyFiles.PickPaired | images/encryption/parsehelpers/parsehelpers.go:193-197 | For every kind as many passwords as keys are collected |
| PrivateKeyFiles.SortKeysPaired | images/encryption/parsehelpers/parsehelpers.go:193-197 | The private keys and the key rings are each as many as their passwords |
| PrivateKeyFiles.SortKeysCount | images/encryption/parsehelpers/parsehelpers.go:202 | The four key lists together hold one key per specification |
| PrivateKeyFiles.PickAppend | images/encryption/parsehelpers/parsehelpers.go:164-201 | Filtering keys and passwords from a concatenation filters each part in turn |
| PrivateKeyFiles.SortKeysAligned | images/encryption/parsehelpers/parsehelpers.go:193-197 | Each key sits at its rank in its kind's list, and its password at the same index of the matching password list |
| PrivateKeyFiles.SortKeysKeepsOrder | images/encryption/parsehelpers/parsehelpers.go:164-201 | Two specifications of the same kind appear in their list in input order |

## Left out

- CreateGPGClient, getGPGPrivateKeys, CreateDecryptCryptoConfig and CreateCryptoConfig: they call the GPG client and the encryption library to assemble configurations. They only combine the outputs of the three helpers with calls the model cannot see. The EncArgs record they read is left out with them.
- The key-format tests of the encryption library: they are parameters (`Host.Classifiers`) with no behaviour of their own, so nothing is proved about which files count as which kind.
- Error messages: each error is a constructor of `Host.Error` carrying the bytes it names; the wording, and the wrapped error a failed read carries, are not modelled.
- Real I/O: os.ReadFile is a lookup in `Env.files`. Reading a descriptor is a lookup in `Env.fds` giving at most 64 bytes in one read; a short read of fewer bytes than are pending is not modelled.
- os.NewFile is modelled as rejecting exactly the negative descriptors. Whether a non-negative number names an open descriptor is decided by `Env.fds`.
- Host.ReadFd: a read that delivers nothing is a failure, standing for the end-of-file error of a Go read at end of file.
- GoStrings.Atoi: `int` is taken to be 64 bits wide. Failures are not told apart by cause (syntax or range): the source wraps the strconv error, and the model drops wrapped errors as it does for failed reads.
- PwdString.ProcessPwdString: the nil password of a key given without one and an empty decoded password are the same empty byte string here; IsPrivateKey could tell them apart, the model cannot.
- PrivateKeyFiles.ProcessPrivateKeyFiles: every key specification is routed against the same unchanging `Env`, so a read neither uses up a descriptor's bytes nor closes it. In the source the descriptor is closed after its one read (parsehelpers.go:133), so a second specification naming the same descriptor (`a:fd=3` then `b:fd=3`) fails at that read or reads whatever was opened in its place. The model accepts both, with the same password.
- Aliasing between the returned slices and the input strings is not modelled; every list is a value.
