# 1Password SDK provider of external-secrets, modelled in Dafny

This project models the 1Password SDK provider of the external-secrets controller. The provider is a plugin that reads secrets out of 1Password through the vendor SDK. The model covers:

- the store validator `validateStore` and its public wrapper `ValidateStore`;
- the one read path, `GetSecret`;
- the operations the provider does not support (`PushSecret`, `DeleteSecret`, `SecretExists`, `GetAllSecrets`, `GetSecretMap`);
- the capability declaration, `Capabilities`.

Files:

- `esv1beta1.dfy` (module `ExternalSecretsTypes`) holds the API types the provider reads. A Go pointer becomes an `Option`, so a `nil` spec, provider, provider block or `Auth` is `None`. The store types keep only the fields the provider reads. The parameter types of the unsupported operations (`ExternalSecretFind`, `PushSecretData`, `PushSecretRemoteRef`, `KubeSecret`) are placeholders: the provider reads none of their fields, and their exact shapes are not part of this model. `ExternalSecretDataRemoteRef.property` is kept so that `GetSecretAsksForKeyOnly` can say it is not read.
- `onepasswordsdk.dfy` (module `OnePasswordSdk`) holds the provider.

How the Go behaviour is represented:

- **Errors.** A Go `error` is the datatype `Error`:
  - `InvalidStore(reason)` is `fmt.Errorf(errOnePasswordSdkStore, reason)`;
  - `VersionNotImplemented` is `errors.New(errVersionNotImplemented)`;
  - `Foreign(message)` is an error from a collaborator.
- **Messages.** `Message` gives the exact text Go prints for each error.
- **Panics.** A Go panic is the `Panic` outcome of `Result`. The validator panics when it reads the name through a `nil` `Auth`. The two map-returning reads panic with `"unimplemented"`.
- **Collaborators.** The vendor client's `Secrets.Resolve` is a function parameter, and so is `utils.ValidateSecretSelector`. Lemmas can then say when each is consulted and that its answer is used unchanged.
- **Checks as a list.** Each check of `validateStore` is also modelled as a Go statement executed on its own (`Evaluate`). On its own it would dereference every pointer on its path. `RunChecks` runs these checks as a fail-fast chain, which gives an independent reference for the validator. The lemmas prove that `validateStore` is that chain in source order.

Notes on the code as written:

- The unsupported write operations return the not-implemented text wrapped under the same "received invalid 1PasswordSdk SecretStore resource: " prefix as the validation errors. They do not return a bare not-implemented error.
- `GetAllSecrets` and `GetSecretMap` panic rather than returning an error.
- The constant `errDeleteNotImplemented` is declared but never used.

## Model

| member | source | states |
|---|---|---|
| `OnePasswordSdk.CheckStore` | pkg/provider/onepasswordsdk/onepasswordsdk.go:72-99 | A missing spec gives "nil spec" whatever else is set. "nil spec.provider" happens exactly when the spec is present and the provider is absent. "nil spec.provider.onepasswordsdk" happens exactly when both are present and the provider block is absent. A panic happens exactly when the provider block is present with a nil `Auth`. "missing name" happens exactly when the name is empty, even if the key is empty too. "missing key" happens exactly when the name is set and the key is empty. A selector failure happens exactly when name and key are set and the selector rejects; it wraps the selector's own error. Success happens exactly when everything is present, both fields are non-empty and the selector accepts. Every error is an umbrella error. |
| `OnePasswordSdk.ValidateStore` | pkg/provider/onepasswordsdk/onepasswordsdk.go:67-70 | Never returns warnings. Its outcome is that of `validateStore`. Every error message it returns starts with the umbrella prefix. |
| `OnePasswordSdk.Message` | pkg/provider/onepasswordsdk/onepasswordsdk.go:17-29 | An umbrella error's message starts with the prefix "received invalid 1PasswordSdk SecretStore resource: ". For every reason except a selector error, the message is longer than the prefix alone. |
| `OnePasswordSdk.FixedReasonTextsDistinct` | pkg/provider/onepasswordsdk/onepasswordsdk.go:19-28 | The reason texts the provider writes itself are pairwise distinct. |
| `OnePasswordSdk.FixedReasonFromMessage` | pkg/provider/onepasswordsdk/onepasswordsdk.go:18-28 | Two umbrella errors with the same message wrap the same reason, so the message of a fixed-reason error identifies the check that failed. |
| `OnePasswordSdk.SelectorConsultedLast` | pkg/provider/onepasswordsdk/onepasswordsdk.go:84-95 | Whenever an earlier check fails, the selector check is not consulted: any two selectors give the same outcome. Otherwise it is consulted only on the store and the service account reference. |
| `OnePasswordSdk.RunChecksOk` | pkg/provider/onepasswordsdk/onepasswordsdk.go:72-97 | A fail-fast chain of checks succeeds exactly when every check in it passes. |
| `OnePasswordSdk.RunChecksFirstFailure` | pkg/provider/onepasswordsdk/onepasswordsdk.go:72-97 | The first check that does not pass decides the outcome of a fail-fast chain. |
| `OnePasswordSdk.CheckStoreFollowsCheckOrder` | pkg/provider/onepasswordsdk/onepasswordsdk.go:72-97 | `validateStore` equals the fail-fast chain over spec, provider, provider block, name, key and selector, in that order. |
| `OnePasswordSdk.CheckStoreFirstFailingCheck` | pkg/provider/onepasswordsdk/onepasswordsdk.go:72-97 | If every check before position k in source order passes and check k does not, check k alone decides the outcome of validation. |
| `OnePasswordSdk.CheckStoreOkIffAllPass` | pkg/provider/onepasswordsdk/onepasswordsdk.go:72-97 | Validation succeeds exactly when all six checks pass. |
| `OnePasswordSdk.OrderedChecksCrashOnlyOnAuth` | pkg/provider/onepasswordsdk/onepasswordsdk.go:73-90 | When the checks run in source order, each pointer is tested before it is dereferenced, except `Auth`. The only check that can then panic is the name check, and only when `Auth` is nil. |
| `OnePasswordSdk.Capabilities` | pkg/provider/onepasswordsdk/onepasswordsdk.go:35-38 | The provider declares that it can read and cannot write. |
| `OnePasswordSdk.GetSecret` | pkg/provider/onepasswordsdk/onepasswordsdk.go:101-112 | A non-empty version fails with the version-not-implemented error. With an empty version, the result is exactly the resolver's answer for the key: the same bytes, the same error, or the same panic. |
| `OnePasswordSdk.GetSecretVersionSkipsResolver` | pkg/provider/onepasswordsdk/onepasswordsdk.go:103-105 | With a version set, the result does not depend on the resolver, so the resolver is not called. Any two resolvers give the version-not-implemented error. |
| `OnePasswordSdk.GetSecretAsksForKeyOnly` | pkg/provider/onepasswordsdk/onepasswordsdk.go:106-111 | With an empty version, the result depends only on the resolver's answer for the key as given. The key is not validated and the property is not read. |
| `OnePasswordSdk.PushSecret` | pkg/provider/onepasswordsdk/onepasswordsdk.go:134-137 | Fails for every input with the umbrella error wrapping "not implemented". |
| `OnePasswordSdk.DeleteSecret` | pkg/provider/onepasswordsdk/onepasswordsdk.go:119-122 | Fails for every input with the umbrella error wrapping "not implemented". |
| `OnePasswordSdk.SecretExists` | pkg/provider/onepasswordsdk/onepasswordsdk.go:139-142 | Answers `false` together with the umbrella error wrapping "not implemented", for every input. |
| `OnePasswordSdk.GetAllSecrets` | pkg/provider/onepasswordsdk/onepasswordsdk.go:124-127 | Panics with "unimplemented" for every input. |
| `OnePasswordSdk.GetSecretMap` | pkg/provider/onepasswordsdk/onepasswordsdk.go:129-132 | Panics with "unimplemented" for every input. |
| `OnePasswordSdk.ReadOnlyMatchesWriteStubs` | pkg/provider/onepasswordsdk/onepasswordsdk.go:36-142 | The declared capabilities do not allow writes. Push, delete and exists all fail with one and the same error. |

## Left out

- `NewClient`: it looks up the token through the Kubernetes API and builds the client through the vendor SDK. Both are foreign I/O. It does not call `validateStore` itself, and it dereferences the spec, provider, provider block and `Auth` without nil checks.
- `Validate`: it consists only of vendor network calls (listing vaults and advancing the cursor).
- `Close` and the `init` registration are framework plumbing. `Close` always returns nil.
- The `provider.client` field that `NewClient` assigns is not modelled. `GetSecret` takes the client's `Secrets.Resolve` as a parameter instead.
- `utils.ValidateSecretSelector` is assumed to return and never to panic. Its parameter type can only accept or reject, unlike the resolver's, which can also panic.
- `utils.ValidateSecretSelector` is not part of this model. It is an arbitrary function parameter, so its namespace and kind rules are not stated.
- The `op://vault/item/field` key shape is not checked, because the code only mentions it in a TODO.
- The `context.Context` arguments are not modelled. The provider passes them straight to its collaborators, and it adds no concurrency or cancellation behaviour of its own.
- Go error identity is not modelled. Errors are compared as values, so `errors.Is` on two separate `errors.New` calls with the same text is not modelled. A selector error can have the same text as a fixed reason, in which case the two messages are identical. The `Reason` datatype still tells them apart.
- Every Go string the resolver returns is modelled as a byte sequence. Because a Go string is a byte sequence, the conversion `[]byte(secret)` is the identity in the model.
