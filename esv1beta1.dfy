/**
 * The parts of the external-secrets `v1beta1` API types that the 1Password SDK
 * provider reads. Go pointers become `Option`. The store types keep only the
 * fields the provider reads; the parameter types of the unsupported
 * operations are placeholders whose fields the provider ignores.
 */
module ExternalSecretsTypes {

  /** A Go pointer: `None` is `nil`. */
  datatype Option<+T> = None | Some(value: T)

  /** A Go byte. Go strings and `[]byte` values are both sequences of these. */
  newtype byte = x: int | 0 <= x < 256

  /** `esmeta.SecretKeySelector`: a reference to one key of a Kubernetes secret. */
  datatype SecretKeySelector = SecretKeySelector(name: string, namespace: Option<string>, key: string)

  /** `OnePasswordSdkAuth`: where the service account token is stored. */
  datatype OnePasswordSdkAuth = OnePasswordSdkAuth(serviceAccountSecretRef: SecretKeySelector)

  /** `OnePasswordSdkProvider`: `Auth` is a pointer and may be `nil`. */
  datatype OnePasswordSdkProvider = OnePasswordSdkProvider(auth: Option<OnePasswordSdkAuth>)

  /** `SecretStoreProvider`, reduced to the one provider block this provider reads. */
  datatype SecretStoreProvider = SecretStoreProvider(onePasswordSdk: Option<OnePasswordSdkProvider>)

  /** `SecretStoreSpec`, reduced to its provider block. */
  datatype SecretStoreSpec = SecretStoreSpec(provider: Option<SecretStoreProvider>)

  /** The two kinds of store a `GenericStore` can be. */
  datatype StoreKind = SecretStore | ClusterSecretStore

  /** `GenericStore`: `GetKind()`, the object's namespace and `GetSpec()`, which may be `nil`. */
  datatype GenericStore = GenericStore(kind: StoreKind, namespace: string, spec: Option<SecretStoreSpec>)

  /** `SecretStoreCapabilities`: what a provider declares it supports. */
  datatype SecretStoreCapabilities = SecretStoreReadOnly | SecretStoreWriteOnly | SecretStoreReadWrite

  /** This model's reading of the capability values: the ones that include reading. */
  predicate CanRead(c: SecretStoreCapabilities) {
    c == SecretStoreReadOnly || c == SecretStoreReadWrite
  }

  /** This model's reading of the capability values: the ones that include writing. */
  predicate CanWrite(c: SecretStoreCapabilities) {
    c == SecretStoreWriteOnly || c == SecretStoreReadWrite
  }

  /**
   * `ExternalSecretDataRemoteRef`: the request for one secret. `GetSecret` does
   * not read `property`; it is kept so that a lemma can say so.
   */
  datatype ExternalSecretDataRemoteRef = ExternalSecretDataRemoteRef(key: string, property: string, version: string)

  /** `ExternalSecretFind`: the request for many secrets at once (a placeholder; never read). */
  datatype ExternalSecretFind = ExternalSecretFind(path: Option<string>, tags: map<string, string>)

  /** `PushSecretRemoteRef`: where a pushed secret would go. */
  datatype PushSecretRemoteRef = PushSecretRemoteRef(remoteKey: string, property: string)

  /** `PushSecretData`: which key of the local secret to push, and where. */
  datatype PushSecretData = PushSecretData(secretKey: string, remoteRef: PushSecretRemoteRef)

  /** `v1.Secret`, reduced to its identity and its data. */
  datatype KubeSecret = KubeSecret(name: string, namespace: string, data: map<string, seq<byte>>)
}
