/**
 * The 1Password SDK provider: its store validator, its one read path and its
 * unsupported operations. The vendor client's `Secrets.Resolve` and the shared
 * `utils.ValidateSecretSelector` check are function parameters, so the lemmas
 * can say when they are consulted and what is done with their answers.
 */
module OnePasswordSdk {
  import opened ExternalSecretsTypes

  // ----- Errors -------------------------------------------------------------

  /** The umbrella text `errOnePasswordSdkStore` puts before the wrapped error. */
  const StorePrefix: string := "received invalid 1PasswordSdk SecretStore resource: "

  const ErrNilSpec: string := "nil spec"
  const ErrNilSpecProvider: string := "nil spec.provider"
  const ErrNilSpecProviderOnePasswordSdk: string := "nil spec.provider.onepasswordsdk"
  const ErrMissingRefName: string := "missing: spec.provider.onepasswordsdk.auth.secretRef.serviceAccountTokenSecretRef.name"
  const ErrMissingRefKey: string := "missing: spec.provider.onepasswordsdk.auth.secretRef.serviceAccountTokenSecretRef.key"
  const ErrVersionNotImplemented: string := "'remoteRef.version' is not implemented in the 1Password SDK provider"
  const ErrNotImplemented: string := "not implemented"

  /** What the Go runtime panics with on a nil pointer dereference. */
  const NilPointerDereference: string := "runtime error: invalid memory address or nil pointer dereference"
  /** The value `GetAllSecrets` and `GetSecretMap` panic with. */
  const Unimplemented: string := "unimplemented"

  /** The error wrapped under the umbrella message. */
  datatype Reason =
    | NilSpec
    | NilSpecProvider
    | NilSpecProviderOnePasswordSdk
    | MissingRefName
    | MissingRefKey
    | NotImplemented
    | Selector(cause: Error)   // what `utils.ValidateSecretSelector` returned

  /** A non-nil Go `error` as this provider produces or forwards it. */
  datatype Error =
    | InvalidStore(reason: Reason)  // fmt.Errorf(errOnePasswordSdkStore, reason)
    | VersionNotImplemented         // errors.New(errVersionNotImplemented)
    | Foreign(message: string)      // an error of a collaborator

  /**
   * What a Go call does: returns a value with a nil error, returns an error,
   * or panics with a message.
   */
  datatype Result<+T> = Ok(value: T) | Err(error: Error) | Panic(message: string)

  /** The text of the wrapped error. */
  function ReasonText(r: Reason): string
  {
    match r
    case NilSpec => ErrNilSpec
    case NilSpecProvider => ErrNilSpecProvider
    case NilSpecProviderOnePasswordSdk => ErrNilSpecProviderOnePasswordSdk
    case MissingRefName => ErrMissingRefName
    case MissingRefKey => ErrMissingRefKey
    case NotImplemented => ErrNotImplemented
    case Selector(cause) => Message(cause)
  }

  /** `err.Error()`: `%w` formats the wrapped error by its own message. */
  function Message(e: Error): (m: string)
    ensures e.InvalidStore? ==> |StorePrefix| <= |m| && m[..|StorePrefix|] == StorePrefix
    ensures e.InvalidStore? ==> |StorePrefix| < |m| || e.reason.Selector?
  {
    match e
    case InvalidStore(r) => StorePrefix + ReasonText(r)
    case VersionNotImplemented => ErrVersionNotImplemented
    case Foreign(msg) => msg
  }

  /** The reason texts the provider itself writes are pairwise different. */
  lemma FixedReasonTextsDistinct(r1: Reason, r2: Reason)
    requires !r1.Selector? && !r2.Selector? && r1 != r2
    ensures ReasonText(r1) != ReasonText(r2)
  {
  }

  /**
   * The message of an umbrella error tells which fixed reason it wraps: two
   * such errors with the same message wrap the same reason.
   */
  lemma FixedReasonFromMessage(r1: Reason, r2: Reason)
    requires !r1.Selector? && !r2.Selector?
    requires Message(InvalidStore(r1)) == Message(InvalidStore(r2))
    ensures r1 == r2
  {
  }

  // ----- Store validation ---------------------------------------------------

  /**
   * `utils.ValidateSecretSelector(store, ref)`: `None` accepts, `Some(e)`
   * rejects with `e`. Its rules for namespaces and kinds are not modelled.
   */
  type SecretSelectorCheck = (GenericStore, SecretKeySelector) -> Option<Error>

  /** The service account reference, when every pointer on the way to it is non-nil. */
  function ServiceAccountRef(store: GenericStore): Option<SecretKeySelector>
  {
    if store.spec.Some? && store.spec.value.provider.Some?
       && store.spec.value.provider.value.onePasswordSdk.Some?
       && store.spec.value.provider.value.onePasswordSdk.value.auth.Some?
    then Some(store.spec.value.provider.value.onePasswordSdk.value.auth.value.serviceAccountSecretRef)
    else None
  }

  /**
   * `validateStore`: the checks in source order, returning at the first one
   * that fails. Reading the name through a nil `Auth` panics.
   */
  function CheckStore(store: GenericStore, validateSelector: SecretSelectorCheck): (r: Result<()>)
    ensures store.spec.None? ==> r == Err(InvalidStore(NilSpec))
    ensures r == Err(InvalidStore(NilSpecProvider))
            <==> store.spec.Some? && store.spec.value.provider.None?
    ensures r == Err(InvalidStore(NilSpecProviderOnePasswordSdk))
            <==> store.spec.Some? && store.spec.value.provider.Some?
                 && store.spec.value.provider.value.onePasswordSdk.None?
    ensures r.Panic?
            <==> store.spec.Some? && store.spec.value.provider.Some?
                 && store.spec.value.provider.value.onePasswordSdk.Some?
                 && store.spec.value.provider.value.onePasswordSdk.value.auth.None?
    ensures r.Panic? ==> r.message == NilPointerDereference
    ensures r == Err(InvalidStore(MissingRefName))
            <==> ServiceAccountRef(store).Some? && ServiceAccountRef(store).value.name == ""
    ensures r == Err(InvalidStore(MissingRefKey))
            <==> ServiceAccountRef(store).Some? && ServiceAccountRef(store).value.name != ""
                 && ServiceAccountRef(store).value.key == ""
    ensures r.Err? && r.error.InvalidStore? && r.error.reason.Selector?
            <==> ServiceAccountRef(store).Some? && ServiceAccountRef(store).value.name != ""
                 && ServiceAccountRef(store).value.key != ""
                 && validateSelector(store, ServiceAccountRef(store).value).Some?
    ensures r.Err? && r.error.InvalidStore? && r.error.reason.Selector?
            ==> r.error.reason.cause == validateSelector(store, ServiceAccountRef(store).value).value
    ensures r.Ok?
            <==> ServiceAccountRef(store).Some? && ServiceAccountRef(store).value.name != ""
                 && ServiceAccountRef(store).value.key != ""
                 && validateSelector(store, ServiceAccountRef(store).value).None?
    ensures r.Err? ==> r.error.InvalidStore?
  {
    match store.spec
    case None => Err(InvalidStore(NilSpec))
    case Some(storeSpec) =>
      match storeSpec.provider
      case None => Err(InvalidStore(NilSpecProvider))
      case Some(provider) =>
        match provider.onePasswordSdk
        case None => Err(InvalidStore(NilSpecProviderOnePasswordSdk))
        case Some(config) =>
          match config.auth
          case None => Panic(NilPointerDereference)
          case Some(auth) =>
            if auth.serviceAccountSecretRef.name == "" then Err(InvalidStore(MissingRefName))
            else if auth.serviceAccountSecretRef.key == "" then Err(InvalidStore(MissingRefKey))
            else match validateSelector(store, auth.serviceAccountSecretRef)
                 case Some(err) => Err(InvalidStore(Selector(err)))
                 case None => Ok(())
  }

  /** What `ValidateStore` returns: admission warnings and the outcome of `validateStore`. */
  datatype StoreValidation = StoreValidation(warnings: seq<string>, outcome: Result<()>)

  /** `ValidateStore`: never any warnings, and exactly the outcome of `validateStore`. */
  function ValidateStore(store: GenericStore, validateSelector: SecretSelectorCheck): (v: StoreValidation)
    ensures v.warnings == []
    ensures v.outcome == CheckStore(store, validateSelector)
    ensures v.outcome.Err? ==> |StorePrefix| <= |Message(v.outcome.error)|
                               && Message(v.outcome.error)[..|StorePrefix|] == StorePrefix
  {
    StoreValidation([], CheckStore(store, validateSelector))
  }

  /**
   * The selector check is consulted only once spec, provider, provider block,
   * auth, name and key are all in place, and then on exactly the store and
   * the service account reference.
   */
  lemma SelectorConsultedLast(store: GenericStore, s1: SecretSelectorCheck, s2: SecretSelectorCheck)
    requires ServiceAccountRef(store).None? || ServiceAccountRef(store).value.name == ""
             || ServiceAccountRef(store).value.key == ""
             || s1(store, ServiceAccountRef(store).value) == s2(store, ServiceAccountRef(store).value)
    ensures CheckStore(store, s1) == CheckStore(store, s2)
  {
  }

  // ----- The checks as an ordered list -------------------------------------

  /** The statements of `validateStore`, one per check. */
  datatype Check = SpecPresent | ProviderPresent | SdkPresent | NamePresent | KeyPresent | SelectorAccepts

  /** The order in which `validateStore` runs its checks. */
  const CheckOrder: seq<Check> := [SpecPresent, ProviderPresent, SdkPresent, NamePresent, KeyPresent, SelectorAccepts]

  /** What running one check alone does. */
  datatype Verdict = Pass | Fail(error: Error) | Crash(message: string)

  /**
   * One check's Go statement run on its own: the condition dereferences every
   * pointer on its path, so run without the checks before it, it may panic.
   */
  function Evaluate(store: GenericStore, validateSelector: SecretSelectorCheck, c: Check): Verdict
  {
    match c
    case SpecPresent =>
      if store.spec.None? then Fail(InvalidStore(NilSpec)) else Pass
    case ProviderPresent =>
      if store.spec.None? then Crash(NilPointerDereference)
      else if store.spec.value.provider.None? then Fail(InvalidStore(NilSpecProvider))
      else Pass
    case SdkPresent =>
      if store.spec.None? || store.spec.value.provider.None? then Crash(NilPointerDereference)
      else if store.spec.value.provider.value.onePasswordSdk.None? then Fail(InvalidStore(NilSpecProviderOnePasswordSdk))
      else Pass
    case NamePresent =>
      (match ServiceAccountRef(store)
       case None => Crash(NilPointerDereference)
       case Some(ref) => if ref.name == "" then Fail(InvalidStore(MissingRefName)) else Pass)
    case KeyPresent =>
      (match ServiceAccountRef(store)
       case None => Crash(NilPointerDereference)
       case Some(ref) => if ref.key == "" then Fail(InvalidStore(MissingRefKey)) else Pass)
    case SelectorAccepts =>
      (match ServiceAccountRef(store)
       case None => Crash(NilPointerDereference)
       case Some(ref) =>
         match validateSelector(store, ref)
         case Some(err) => Fail(InvalidStore(Selector(err)))
         case None => Pass)
  }

  /** The outcome of a check that stops the chain. */
  function Stop(v: Verdict): Result<()>
  {
    match v
    case Pass => Ok(())
    case Fail(e) => Err(e)
    case Crash(m) => Panic(m)
  }

  /** A fail-fast chain: run the checks in order and stop at the first that does not pass. */
  function RunChecks(store: GenericStore, validateSelector: SecretSelectorCheck, cs: seq<Check>): Result<()>
  {
    if cs == [] then Ok(())
    else
      var v := Evaluate(store, validateSelector, cs[0]);
      if v.Pass? then RunChecks(store, validateSelector, cs[1..]) else Stop(v)
  }

  /** A chain succeeds exactly when every check in it passes. */
  lemma {:induction false} RunChecksOk(store: GenericStore, validateSelector: SecretSelectorCheck, cs: seq<Check>)
    ensures RunChecks(store, validateSelector, cs).Ok?
            <==> forall i :: 0 <= i < |cs| ==> Evaluate(store, validateSelector, cs[i]).Pass?
  {
    if cs != [] {
      RunChecksOk(store, validateSelector, cs[1..]);
      assert forall i :: 1 <= i < |cs| ==> cs[1..][i - 1] == cs[i];
    }
  }

  /** The first check that does not pass decides the outcome of a chain. */
  lemma {:induction false} RunChecksFirstFailure(store: GenericStore, validateSelector: SecretSelectorCheck, cs: seq<Check>, k: nat)
    requires k < |cs|
    requires forall i :: 0 <= i < k ==> Evaluate(store, validateSelector, cs[i]).Pass?
    requires !Evaluate(store, validateSelector, cs[k]).Pass?
    ensures RunChecks(store, validateSelector, cs) == Stop(Evaluate(store, validateSelector, cs[k]))
  {
    if k > 0 {
      assert Evaluate(store, validateSelector, cs[0]).Pass?;
      assert forall i :: 0 <= i < k - 1 ==> cs[1..][i] == cs[i + 1];
      RunChecksFirstFailure(store, validateSelector, cs[1..], k - 1);
    }
  }

  /** `validateStore` is exactly the fail-fast chain over its checks in source order. */
  lemma CheckStoreFollowsCheckOrder(store: GenericStore, validateSelector: SecretSelectorCheck)
    ensures CheckStore(store, validateSelector) == RunChecks(store, validateSelector, CheckOrder)
  {
    var sel := validateSelector;
    var ref := ServiceAccountRef(store);
    if store.spec.None? {
      RunChecksFirstFailure(store, sel, CheckOrder, 0);
    } else if store.spec.value.provider.None? {
      RunChecksFirstFailure(store, sel, CheckOrder, 1);
    } else if store.spec.value.provider.value.onePasswordSdk.None? {
      RunChecksFirstFailure(store, sel, CheckOrder, 2);
    } else if ref.None? || ref.value.name == "" {
      RunChecksFirstFailure(store, sel, CheckOrder, 3);
    } else if ref.value.key == "" {
      RunChecksFirstFailure(store, sel, CheckOrder, 4);
    } else if sel(store, ref.value).Some? {
      RunChecksFirstFailure(store, sel, CheckOrder, 5);
    } else {
      forall i | 0 <= i < |CheckOrder| ensures Evaluate(store, sel, CheckOrder[i]).Pass? {
        assert CheckOrder[i] in {SpecPresent, ProviderPresent, SdkPresent, NamePresent, KeyPresent, SelectorAccepts};
      }
      RunChecksOk(store, sel, CheckOrder);
      assert RunChecks(store, sel, CheckOrder).value == ();
    }
  }

  /**
   * Validation succeeds exactly when every check passes, and otherwise the
   * first check in source order that does not pass decides the error.
   */
  lemma CheckStoreFirstFailingCheck(store: GenericStore, validateSelector: SecretSelectorCheck, k: nat)
    requires k < |CheckOrder|
    requires forall i :: 0 <= i < k ==> Evaluate(store, validateSelector, CheckOrder[i]).Pass?
    requires !Evaluate(store, validateSelector, CheckOrder[k]).Pass?
    ensures CheckStore(store, validateSelector) == Stop(Evaluate(store, validateSelector, CheckOrder[k]))
  {
    CheckStoreFollowsCheckOrder(store, validateSelector);
    RunChecksFirstFailure(store, validateSelector, CheckOrder, k);
  }

  /** Validation succeeds exactly when every check, run in source order, passes. */
  lemma CheckStoreOkIffAllPass(store: GenericStore, validateSelector: SecretSelectorCheck)
    ensures CheckStore(store, validateSelector).Ok?
            <==> forall i :: 0 <= i < |CheckOrder| ==> Evaluate(store, validateSelector, CheckOrder[i]).Pass?
  {
    CheckStoreFollowsCheckOrder(store, validateSelector);
    RunChecksOk(store, validateSelector, CheckOrder);
  }

  /**
   * Run in source order, no check panics on a pointer an earlier check has
   * already tested: the only panic left is the unchecked `Auth`.
   */
  lemma OrderedChecksCrashOnlyOnAuth(store: GenericStore, validateSelector: SecretSelectorCheck, k: nat)
    requires k < |CheckOrder|
    requires forall i :: 0 <= i < k ==> Evaluate(store, validateSelector, CheckOrder[i]).Pass?
    ensures Evaluate(store, validateSelector, CheckOrder[k]).Crash?
            <==> CheckOrder[k] == NamePresent
                 && store.spec.Some? && store.spec.value.provider.Some?
                 && store.spec.value.provider.value.onePasswordSdk.Some?
                 && store.spec.value.provider.value.onePasswordSdk.value.auth.None?
  {
    if k > 3 {
      assert Evaluate(store, validateSelector, CheckOrder[3]).Pass?;
    } else if k > 0 {
      assert Evaluate(store, validateSelector, CheckOrder[k - 1]).Pass?;
    }
  }

  // ----- Reading and the unsupported operations ----------------------------

  /**
   * The vendor client's `Secrets.Resolve(ctx, key)`. A Go string is a byte
   * sequence, so the resolved value is already the bytes `[]byte(secret)` copies.
   */
  type Resolver = string -> Result<seq<byte>>

  /** `Capabilities`: the provider only reads. */
  function Capabilities(): (c: SecretStoreCapabilities)
    ensures CanRead(c) && !CanWrite(c)
  {
    SecretStoreReadOnly
  }

  /**
   * `GetSecret`: a versioned request fails before the client is used;
   * otherwise the resolver's answer for the key is returned unchanged.
   */
  function GetSecret(ref: ExternalSecretDataRemoteRef, resolve: Resolver): (r: Result<seq<byte>>)
    ensures ref.version != "" ==> r == Err(VersionNotImplemented)
    ensures ref.version == "" ==> r == resolve(ref.key)
  {
    if ref.version != "" then Err(VersionNotImplemented)
    else
      match resolve(ref.key)
      case Ok(secret) => Ok(secret)
      case Err(err) => Err(err)
      case Panic(m) => Panic(m)
  }

  /** With a version set, the resolver is not consulted: any two resolvers give the same answer. */
  lemma GetSecretVersionSkipsResolver(ref: ExternalSecretDataRemoteRef, r1: Resolver, r2: Resolver)
    requires ref.version != ""
    ensures GetSecret(ref, r1) == GetSecret(ref, r2) == Err(VersionNotImplemented)
  {
  }

  /**
   * The resolver is consulted on the key exactly as given: the key is not
   * checked, and the property is not looked at.
   */
  lemma GetSecretAsksForKeyOnly(ref1: ExternalSecretDataRemoteRef, ref2: ExternalSecretDataRemoteRef, r1: Resolver, r2: Resolver)
    requires ref1.version == "" && ref2.version == ""
    requires r1(ref1.key) == r2(ref2.key)
    ensures GetSecret(ref1, r1) == GetSecret(ref2, r2)
  {
  }

  /** `PushSecret`: not implemented, whatever the input. */
  function PushSecret(secret: KubeSecret, data: PushSecretData): (r: Result<()>)
    ensures r.Err? && r.error.InvalidStore? && r.error.reason == NotImplemented
    ensures Message(r.error) == StorePrefix + ErrNotImplemented
  {
    Err(InvalidStore(NotImplemented))
  }

  /** `DeleteSecret`: not implemented, whatever the input. */
  function DeleteSecret(remoteRef: PushSecretRemoteRef): (r: Result<()>)
    ensures r.Err? && r.error.InvalidStore? && r.error.reason == NotImplemented
    ensures Message(r.error) == StorePrefix + ErrNotImplemented
  {
    Err(InvalidStore(NotImplemented))
  }

  /** `SecretExists`: answers `false` together with the not-implemented error. */
  function SecretExists(remoteRef: PushSecretRemoteRef): (r: (bool, Result<()>))
    ensures !r.0
    ensures r.1.Err? && r.1.error.InvalidStore? && r.1.error.reason == NotImplemented
    ensures Message(r.1.error) == StorePrefix + ErrNotImplemented
  {
    (false, Err(InvalidStore(NotImplemented)))
  }

  /** `GetAllSecrets`: panics, whatever the input. */
  function GetAllSecrets(ref: ExternalSecretFind): (r: Result<map<string, seq<byte>>>)
    ensures r.Panic? && r.message == Unimplemented
  {
    Panic(Unimplemented)
  }

  /** `GetSecretMap`: panics, whatever the input. */
  function GetSecretMap(ref: ExternalSecretDataRemoteRef): (r: Result<map<string, seq<byte>>>)
    ensures r.Panic? && r.message == Unimplemented
  {
    Panic(Unimplemented)
  }

  /**
   * The declared capabilities match the stubs: the provider does not claim
   * writes, and every write operation fails with the same error.
   */
  lemma ReadOnlyMatchesWriteStubs(secret: KubeSecret, data: PushSecretData, remoteRef: PushSecretRemoteRef)
    ensures !CanWrite(Capabilities())
    ensures PushSecret(secret, data) == DeleteSecret(remoteRef) == SecretExists(remoteRef).1
  {
  }
}
