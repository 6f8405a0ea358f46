# Dynite client: base-URL validation

A Dafny model of how the Dynite client (a Python client for the Business
Central OData API) accepts its base URL. `Dynite(base_url)` checks that the
URL starts with the literal prefix `http://` or `https://`. If it does not,
the constructor raises `InvalidURLError`, a subclass of the library's umbrella
`DyniteError`, with the message `Invalid URL: <url>`. If it does, the client
stores the URL with every trailing `/` removed, as Python's `rstrip("/")`
does.

- `text.dfy` (module `Text`): the prefix test and the trailing-slash strip,
  with the lemmas that characterise the strip exactly. The result is the
  unique prefix that the input extends by slashes only and that does not
  itself end in a slash. The module also proves that the strip is idempotent
  and that it ignores appended slashes.
- `client.dfy` (module `Client`): the exception classes as an `ErrorKind`
  datatype with its subclass relation, `ValidateUrl` returning a `Result`,
  the lemmas about it, and the `Dynite` class with its `baseUrl` field.

Python's exceptions become the `Err` case of `Result`. The raising
constructor is modelled twice. `Dynite.constructor` covers the accepting path
only. `Dynite.Create` returns either a fresh client or the error that the
constructor raises.

The code has no host check. A bare `https://` (or `https://` followed by
more slashes) is accepted, and stripping removes the scheme's own slashes,
leaving `https:`. The same holds for `http://`. The repository's tests
expect this input to be rejected (tests/test_client_initialization.py:41-46
and tests/client/test_initialization.py:50-54). The model follows the code, and `ValidateUrlBareScheme` states what the code
does.

## Model

| member | source | states |
|---|---|---|
| `Text.StartsWith` | src/dynite/client.py:34 | `str.startswith` with one prefix: the prefix is no longer than the string and equals its first characters, compared literally and case-sensitively |
| `Text.StripTrailingSlashes` | src/dynite/client.py:38 | `rstrip("/")`: the result is a prefix of the input, only slashes were removed, and the result does not end in a slash |
| `Text.StripCharacterised` | src/dynite/client.py:38 | both directions: `t` is the stripped form of `s` exactly when `s` is `t` followed by slashes only and `t` does not end in a slash |
| `Text.StripUnique` | src/dynite/client.py:38 | any prefix that the input extends by slashes only, and that does not end in a slash, is the stripped form |
| `Text.StripIdempotent` | src/dynite/client.py:38 | stripping an already stripped string leaves it unchanged |
| `Text.StripNoTrailingSlash` | src/dynite/client.py:38 | a string that does not end in `/` is returned unchanged |
| `Text.StripAppendSlashes` | src/dynite/client.py:38 | appending any number of slashes does not change the stripped form |
| `Text.StripKeepsPrefix` | src/dynite/client.py:34-38 | a prefix ending in `/` survives the strip when some non-slash character follows it |
| `Client.IsA` | src/dynite/exceptions.py:8-13 | `issubclass` over the two exception classes: a kind is itself, or is an ancestor reached through `Parent`, where `InvalidURLError`'s parent is `DyniteError` |
| `Client.EveryErrorIsDyniteError` | src/dynite/exceptions.py:8-13 | every error kind is a `DyniteError`, and only `InvalidURLError` is an `InvalidURLError` |
| `Client.HasSupportedScheme` | src/dynite/client.py:34 | `url.startswith(("http://", "https://"))`: true when either literal prefix starts the URL |
| `Client.SchemeTestAfterHttp` | src/dynite/client.py:34 | the two-prefix `startswith` test passes exactly when the URL starts with `http` followed by `://` or by `s://` |
| `Client.ValidateUrl` | src/dynite/client.py:25-38 | accepts exactly the inputs that start with `http://` or `https://`. A refused input gives an `InvalidURLError` with message `Invalid URL: <url>`. An accepted input gives a prefix of the input that does not end in `/`, and only slashes were removed |
| `Client.ValidateUrlStripsExactly` | src/dynite/client.py:34-38 | for an accepted URL, `Ok(t)` is returned if and only if the URL is `t` followed by slashes only and `t` does not end in `/` |
| `Client.ValidateUrlNoTrailingSlash` | src/dynite/client.py:34-38 | an accepted URL that does not end in `/` is returned unchanged |
| `Client.ValidateUrlIgnoresExtraSlashes` | src/dynite/client.py:34-38 | adding trailing slashes to an accepted URL does not change the result |
| `Client.ValidateUrlIdempotent` | src/dynite/client.py:34-38 | validating a validated URL again, when it still has a scheme, returns the same result |
| `Client.ValidateUrlKeepsScheme` | src/dynite/client.py:34-38 | when a non-slash character follows the scheme, the result still starts with `http://` or `https://` |
| `Client.ValidateUrlOneCharHost` | src/dynite/client.py:34-38 | `http://a` and `http://a/` are both accepted as `http://a` |
| `Client.ValidateUrlBareScheme` | src/dynite/client.py:34-38 | there is no host check: `https://` and `http://`, followed by any number of slashes, are accepted as `https:` and `http:` |
| `Client.ValidateUrlODataExamples` | src/dynite/client.py:34-38 | `https://example.com/odata/` and `https://example.com/odata` both give `https://example.com/odata` |
| `Client.UpperCaseSchemeRefused` | src/dynite/client.py:34-37 | the prefix test is case-sensitive: `HTTPS://...` is refused with `InvalidURLError` |
| `Client.OtherSchemesRefused` | src/dynite/client.py:34-37 | `ftp://...`, `invalid_url` and the empty string are refused |
| `Client.Dynite.constructor` | src/dynite/client.py:17-23 | on an accepted URL, `baseUrl` is the validated URL, which does not end in `/` |
| `Client.Dynite.Create` | src/dynite/client.py:17-23 | construction yields a fresh client exactly when the scheme is supported, with `baseUrl` equal to the validated URL. Otherwise no client is produced and the error is the one `ValidateUrl` gives |

## Left out

- Logging: the `logger.exception` call on rejection (src/dynite/client.py:36) and the package's `NullHandler` setup (src/dynite/__init__.py:11). Both are side effects with no effect on the result.
- `Client.Dynite.constructor`: requires a supported scheme, because a Dafny constructor cannot raise. The raising path of `__init__` is modelled by `Client.Dynite.Create`.
- `_validate_url` is an instance method in the source but reads no instance state. It is modelled as the module-level function `Client.ValidateUrl`.
- Non-string arguments are excluded by the types. In Python such arguments raise `AttributeError` or `TypeError`, or pass through if they provide `startswith` and `rstrip`.
- Timeouts, retries, authentication, the HTTP session, URL building, `$count` fetching and `@odata.nextLink` pagination are not modelled. The repository's tests exercise them (tests/test_client.py and tests/client/test_methods.py), but the client source does not implement them.
- `FailedRequestError` and `InvalidResponseError` are not modelled. The tests import them, but src/dynite/exceptions.py does not define them.
