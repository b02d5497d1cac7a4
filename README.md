# qiflib secret space, in Dafny

This project models the secret space of qiflib, the `Secrets` class of
`src/qiflib/core/secrets.py`. A secret space is a list of at least two secret
labels plus a prior: a probability distribution over those labels, aligned
with them by position. Construction checks its arguments in a fixed order:
types first, then sizes, then the distribution. `update_prior` replaces the
prior after the same kind of checks, and only once every check has passed.

Modules:

- `Wrappers` (wrappers.dfy): `Option` and `Result`. Errors the source raises are returned as values.
- `Probability` (probability.dfy): `IsDistribution`, an exact-real version of the library's
  distribution check (entries non-negative, sum exactly 1), with lemmas about sums.
- `PyTypes` (pytypes.dfy): a tagged argument type, `List`, `NdArray` or `Other`. It stands for
  the dynamic type tests `is_list` and `is_numpy_array`.
- `SecretsSpec` (secrets_spec.dfy): the errors and the exception class of each one. It also
  holds the two guards, the class invariant `ValidState`, and the outcome of construction and
  of `update_prior` as functions. Lemmas relating them come last.
- `SecretSpace` (secret_space.dfy): the class `Secrets`, with fields `labels`, `numSecrets` and
  `prior`. `New` models `__init__` and `UpdatePrior` models `update_prior`. Both are proved
  against the functions of `SecretsSpec`.

Labels need not be distinct. The code only checks that there are at least 2 labels
(src/qiflib/core/secrets.py:73), and `DuplicateLabelsAccepted` shows that two equal labels
are accepted.

## Model

| member | source | states |
|---|---|---|
| `SecretsSpec.ClassOf` | src/qiflib/core/secrets.py:53-78 | The two type-test failures, lines 54 and 64-67, and only they, are raised as TypeError. The size failures at lines 57, 74 and 77-78 are plain Exceptions. Only the distribution failure comes from the validator. |
| `SecretsSpec.Message` | src/qiflib/core/secrets.py:54-78 | Gives the source's message text for each error the secret space raises itself. The messages of the TypeErrors, and only those, begin "The parameter '" and go on to name the argument. |
| `SecretsSpec.MessageIdentifiesError` | src/qiflib/core/secrets.py:54-78 | No two errors raised by the secret space share a message, so the text tells the caller which check failed. |
| `SecretsSpec.CheckTypes` | src/qiflib/core/secrets.py:62-67 | Passes exactly when the labels are a list and the prior is a list or a numpy array. A non-list `secrets` is reported before a bad `prior`. Every failure is a TypeError. |
| `SecretsSpec.CheckSizes` | src/qiflib/core/secrets.py:69-78 | Passes exactly when there are at least 2 labels and as many labels as prior entries. Too few labels is reported before a length mismatch. Every failure is a plain Exception. |
| `SecretsSpec.Construct` | src/qiflib/core/secrets.py:34-40 | Construction succeeds exactly when the types are accepted, there are at least 2 labels, the lengths agree and the prior is a distribution. A success satisfies the class invariant and stores the input labels and prior elementwise. A failure is a TypeError exactly when the types are wrong, so type checks come first. With correct types, too few labels wins over a length mismatch. With correct types and sizes, a prior that is not a distribution fails with the validator's error. |
| `SecretsSpec.UpdatedPrior` | src/qiflib/core/secrets.py:42-60 | An update succeeds exactly when the argument is a list or an array of `numSecrets` entries forming a distribution. On success only the prior changes, and it becomes the argument. A non-list, non-array argument is a type error. A wrong length is a size error. A correctly typed, correctly sized vector that is not a distribution fails with the validator's error. The class invariant is preserved. |
| `SecretsSpec.StateAfterUpdate` | src/qiflib/core/secrets.py:53-60 | `update_prior` is atomic. Labels and count never change. On failure the whole state is the old one. On success the prior is the new vector. The invariant is preserved either way. |
| `SecretsSpec.UpdateAgreesWithConstruct` | src/qiflib/core/secrets.py:34-60 | On a valid state, updating the prior succeeds exactly when constructing a new space from the same labels and that prior succeeds. When it does, both give the same state. |
| `SecretsSpec.UpdateWithStoredPrior` | src/qiflib/core/secrets.py:56-60 | Passing the stored prior, a numpy array, back to `update_prior` succeeds and leaves the state unchanged. |
| `SecretsSpec.UpdateIdempotent` | src/qiflib/core/secrets.py:53-60 | Applying the same update twice gives the same state as applying it once. |
| `SecretsSpec.LastSuccessfulUpdateWins` | src/qiflib/core/secrets.py:59-60 | The prior is replaced wholesale. After a successful update, the state does not depend on any update made before it. |
| `SecretsSpec.PriorEntriesAreProbabilities` | src/qiflib/core/secrets.py:29-31 | In a valid secret space there is one prior entry per label, and each `prior[i]` lies in [0, 1]. |
| `SecretsSpec.DuplicateLabelsAccepted` | src/qiflib/core/secrets.py:73-74 | An illustration of a rule already in `Construct`'s success condition: labels are not checked for uniqueness, so two equal labels with the prior [0.5, 0.5] are accepted. |
| `Probability.DistributionEntriesInUnitInterval` | src/qiflib/core/secrets.py:39 | Every entry of a vector that passes the distribution check lies in [0, 1]. |
| `SecretSpace.Secrets.WithLabels` | src/qiflib/core/secrets.py:37-38 | The first field assignments of `__init__`: the stored labels equal the given ones, and `numSecrets` is their count. |
| `SecretSpace.Secrets.New` | src/qiflib/core/secrets.py:34-40 | Returns a fresh object exactly when `Construct` succeeds. That object satisfies the class invariant, and its state is the one `Construct` gives. Otherwise it returns the error `Construct` reports. |
| `SecretSpace.Secrets.UpdatePrior` | src/qiflib/core/secrets.py:42-60 | May change only the `prior` field. It keeps the class invariant and leaves labels and count unchanged. On error the prior keeps its old value. On success the prior is the new vector. The error and the new state are exactly those given by `UpdatedPrior` and `StateAfterUpdate`. |
| `SecretSpace.CallerEditAfterConstruction` | src/qiflib/core/secrets.py:37 | Construction from the caller's list succeeds exactly when `Construct` accepts that list's contents. After construction, overwriting an element of the caller's own list leaves the labels of the secret space as they were. |

## Left out

- `check_prob_distribution` (src/qiflib/util/probability.py) is not part of this model. It is replaced by `Probability.IsDistribution`, which requires non-negative entries and a sum of exactly 1 over reals. The library compares with a floating-point tolerance and rejects with its own exception type and message, which the model represents as the single error `NotDistribution`.
- `is_list` and `is_numpy_array` (src/qiflib/util/types.py) are not part of this model. They become the tags of `PyTypes.Arg`. Element types are not checked: the prior's elements are reals and the labels are of any type `L`.
- numpy's `array(...)` is modelled as the identity on the elements. Multi-dimensional arrays, dtype conversion and numpy's own errors are not modelled.
- `SecretSpace.Secrets.New`: in the source, `__init__` assigns `labels` and `num_secrets` before the distribution check. If that check fails, the half-built object is never returned. The model makes the assignments in the same order and returns only the error, so the half-built object is not observable in either.
- SecretSpace.CallerEditAfterConstruction: the copy of the labels at line 37 holds here by value semantics. The caller's list reaches `New` as a `seq` value, so the model could not alias it even if line 37 stored `secrets` itself. The source's use of `.copy()` to avoid aliasing is therefore not what this member proves.
- `self.labels` (a list) and `self.prior` (a numpy array) are public mutable attributes in the source. A caller holding them can change them in place with no check, for example `s.prior[0] = 2.0` or `s.labels.append(y)`, which leaves `num_secrets` stale. The model's `seq` fields cannot be changed in place. So the class invariant `Valid()` is proved only for code that goes through `New` and `UpdatePrior`.
- Raised exceptions are modelled as returned `Error` values. Python's unwinding and tracebacks are not modelled.
- Channel, Hyper, GVulnerability and LUncertainty (imported at src/qiflib/core/__init__.py:15-18) are not part of this model: their source files are not available.
- Lazy module loading (`__getattr__`, `__dir__`), packaging (setup.py) and documentation configuration (docs/source/conf.py) contain no modelled behaviour.
