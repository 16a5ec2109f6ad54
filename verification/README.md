# Form submission service: verified model of its request logic

The service is a FastAPI application. It serves a form, accepts a name,
an address, an id number and a photograph, and forwards them to Azure:

1. the photograph goes to Blob Storage;
2. a row goes to PostgreSQL;
3. a notification goes to a Service Bus queue.

At startup it reads three connection strings from Key Vault, falling back
to environment variables, and builds its clients into module globals. This
project models that logic in Dafny and proves what it promises. Every
collaborator is an input: the vault and the process environment are maps,
and each SDK call is given as "returns this value" or "raises with this
message".

Modules, one per concern of `main.py`:

- `Outcomes`: `Option`, `Result` and `Outcome` for calls that may raise.
- `Text`: the Python string operations used (`split`, `upper`, `replace`,
  `startswith`). `Join` is not used by the service; it is the inverse by
  which `split` is specified.
- `Naming`: the blob name `<uuid>.<extension>`.
  - The extension is the text after the last dot of the client's file name.
    It defaults to `jpg` when there is no dot.
  - It is empty when the name ends in a dot, so the blob name then ends in
    a bare dot.
- `Secrets`: `get_secret`.
  - When the vault call raises, it reads the environment variable named by
    upper-casing the secret name and turning `-` into `_`.
  - It never raises itself. When that variable is unset it returns None.
- `Startup`: the module globals as class `Globals`, and
  `initialize_azure_clients` as a method that changes them.
  - The three secrets are requested first, in a fixed order.
  - Then it builds the Blob client, the Service Bus client and the pool,
    and creates the table.
  - The first SDK failure is re-raised. A global that was assigned before
    the failure stays assigned.
- `Submission`: `submit_form` as a method that returns the HTTP answer and
  the list of collaborator calls it made.
  - Calls happen strictly in order, and a failure stops all later ones.
  - Nothing is undone: there is no delete of any kind.
  - Every exception ends in one handler that answers with a 500. That
    includes the 400 raised for a non-image content type: it reaches the
    client as `500 Internal server error: 400: File must be an image`.

Two facts about `main.py` that the model keeps as they are:

- One handler for all failures: an upload, insert or send failure is not
  told apart from the others. Each is the same 500 with the exception's
  text.
- A secret the vault cannot supply is not fatal by itself. `get_secret`
  falls back to the environment and passes None on to the SDK constructor
  when the variable is unset. Startup then fails only if that constructor
  raises, which is an input here.

## Model

| member | source | states |
|---|---|---|
| `Text.Split` | main.py:180 | `split('.')`: at least one piece, no piece contains the separator, and joining the pieces with it gives back the original string |
| `Text.SplitOfJoin` | main.py:180 | the converse round trip: splitting a join of separator-free pieces gives back those pieces |
| `Text.JoinEndsWithLast` | main.py:180 | the last piece of a split (`[-1]`) is a suffix of the string, directly preceded by the separator when there are several pieces |
| `Text.JoinContainsSeparator` | main.py:180 | a join of separator-free pieces contains the separator exactly when there are at least two pieces, which ties `'.' in filename` to the number of pieces |
| `Naming.Extension` | main.py:180 | the extension never contains a dot; with no dot in the file name it is `jpg`; otherwise it is a suffix of the file name that directly follows a dot |
| `Naming.ExtensionIsAfterLastDot` | main.py:180 | any dot-free suffix that directly follows a dot equals the extension, so the extension is exactly the text after the LAST dot |
| `Naming.BlobNameInjective` | main.py:181 | for well-formed uuid4 strings, equal blob names come from equal uuids and equal extensions |
| `Naming.NoDeduplication` | main.py:180-181 | the same file submitted under two distinct uuids is stored under two distinct blob names |
| `Naming.ExtensionOfBlobName` | main.py:180-181 | deriving the extension from the generated blob name gives back the extension it was built with |
| `Secrets.EnvName` | main.py:40 | the fallback variable name has the secret name's length, no `-` and no lower-case ASCII letter; position by position `-` becomes `_` and letters are upper-cased |
| `Secrets.FallbackVariableUnique` | main.py:40 | only one name satisfies that position-by-position description, the one EnvName computes |
| `Secrets.StorageFallbackVariable` | main.py:48 | when the vault cannot supply it, the storage secret falls back to `STORAGE_CONNECTION_STRING` |
| `Secrets.PostgresFallbackVariable` | main.py:49 | when the vault cannot supply it, the PostgreSQL secret falls back to `POSTGRES_CONNECTION_STRING` |
| `Secrets.ServiceBusFallbackVariable` | main.py:50 | when the vault cannot supply it, the Service Bus secret falls back to `SERVICEBUS_CONNECTION_STRING` |
| `Secrets.GetSecret` | main.py:32-40 | the vault's value when the vault answers; otherwise it does not fail and returns the value of the (unique) fallback variable, None when unset |
| `Startup.FirstFailure` | main.py:46-79 | the position of the first raising call: everything before it returned and the call at it raised |
| `Startup.CallsReturnedIsFirstFailure` | main.py:52-79 | the count of SDK calls that return before startup stops is the first failure in call order (blob client, Service Bus client, pool, table) |
| `Startup.Globals.constructor` | main.py:27-30 | the three globals start as None |
| `Startup.Globals.InitializeAzureClients` | main.py:42-79 | the storage, PostgreSQL and Service Bus secrets are requested first and in that order, then the SDK calls follow in source order up to the first that raises; that failure is re-raised unchanged; each global holds a client built from its own secret once its constructor returned, and keeps its old value otherwise; success leaves all three clients in place |
| `Submission.SubmitForm` | main.py:166-234 | a missing content type makes no call and answers 500 with the AttributeError's text; a non-image content type makes no call and answers 500 with `400: File must be an image`; upload, insert and send happen strictly in that order, each only after the previous one returned; the upload goes to `form-images` under `<uuid>.<ext>` with overwrite; the row holds exactly the name, address, id number, blob name and blob URL; the message carries the inserted id and the same values; success answers with that id and URL; any failure answers 500 with that call's message, and the calls already made stay made |

## Left out

- The HTML form and its script (the `/` route) are presentation only.
- The Azure SDKs, asyncpg and Key Vault are not modelled beyond their
  outcomes, which are inputs. This includes the SQL table definition and
  the way the blob URL is formed; the URL is the upload's result.
- The timing and overlap that `async`/`await` allows are not modelled, and
  neither is the connection pool's acquire and release. Requests are
  independent and each runs its calls in sequence.
- `sender.close()` after a send is not modelled. A failure of close alone
  would also give a 500 after the message was sent.
- `get_blob_client` and `get_queue_sender` are not separate calls. If
  one of them raised, the model counts it as the upload or the send
  failing, and its call list records a call that was never made. The 500
  answer is the same either way.
- `photograph.read()` is taken to succeed: the photograph's bytes are an
  input.
- `uuid.uuid4()` and `datetime.utcnow()` are parameters. The uuid's shape
  is the `IsUuid4` predicate; its randomness is not modelled.
- JSON encoding of the queue message is not modelled; the message is a
  record.
- Logging, the shutdown hook, the health endpoint and the uvicorn entry
  point are not modelled.
- `startup_event` only awaits the initialisation. Refusing to serve after
  a failed startup belongs to FastAPI and is not modelled.
- `Text.ToUpper` and `Text.AsciiUpper` upper-case ASCII letters only.
  Python's `upper()` also maps other letters and can lengthen a string
  (`ß` becomes `SS`). The secret names involved are ASCII.
- A vault call that raises for one name is modelled as that name missing
  from the vault map. Each name is requested only once per startup, so
  this loses nothing.
- `Submission.SubmitForm` takes the file name as a string. FastAPI builds
  an `UploadFile` only for a part that has a file name, and it rejects
  missing form fields with a 422 before the handler runs.
