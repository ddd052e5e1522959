# Spendora expenses controller — lifecycle record and `/adicionar` handler

Spendora is a small personal-finance Telegram bot. This project models its two pieces of logic in Dafny.

**The lifecycle base model** (`model/base_model.py`) is the ORM mixin every table inherits. It has eleven audit columns:

- `id`, `created_by`, `created_at`, `updated_by`, `updated_at`;
- the *deletion triple* `deleted_by`, `deleted_at`, `is_deleted`;
- the *activation triple* `activated_by`, `activated_at`, `is_active`.

How the model represents it:

- `BaseModel.Record` is a class with these fields. Its four lifecycle methods (`soft_activate`, `restore_activate`, `soft_delete`, `restore_delete`) set or clear one triple in place.
- `BaseModel.Fields` is the value of the columns at one moment. The methods are specified by functions on it. `as_dict` is `Fields.AsDict`.
- `Record.New` models the keyword constructor `__init__`. It loops over the keyword arguments calling `setattr`, then fails with `TypeError` on the first keyword that names no column.
- `func.utcnow()` assigns an SQL expression, not a clock reading. It is the marker `Stamp.UtcNow`.
- The `uuid.uuid4` default for `id` is a parameter (`freshId`).

The module `BaseModelProperties` proves what the methods promise together:

- Two invariants stay true under any sequence of lifecycle calls, starting from the defaults:
  - `is_deleted` holds exactly when `deleted_at` is set;
  - an inactive record has no activation time or author.
- The triples are independent and the audit columns are never touched.
- Both restores are idempotent. A restore after its soft counterpart gives what the restore alone gives; it gives back the original record only when that triple was clear before the soft call.
- Rebuilding a record from its `as_dict` gives the same record.
- A keyword argument such as `is_deleted=True` can break the deletion invariant.

**The bot handlers** (`interface/telegram-bot.py`):

- `start` and `help` are constant replies.
- `add` is a pure function from the message text to one of four outcomes: a "value required" reply, a "cannot be negative" reply, an echo of the typed price, or `ParseError`. `ParseError` means `int()` raises and nothing is sent.

`PyBuiltins` models the two Python built-ins `add` calls, and one more used only to state a property:

- `str.split(" ")`: every single space separates; the result is never empty.
- `int(str)` in base 10:
  - white space around the number is skipped, following what CPython's `int` skips;
  - one optional sign is allowed;
  - ASCII digits may have single underscores between them;
  - leading zeros are allowed.
- `PyBuiltins.Str` renders an integer in decimal. It has no counterpart in the source: `add` never calls `str`. It is there only to state the round trip `int(str(n)) == n` used by the proofs about `add`, so it has no row in the table below.

Proved about `add`:

- It asks for a value exactly when the text has no space.
- Only the second `" "`-separated piece is read; later pieces are ignored.
- Two spaces right after the command give an empty price, so the handler raises. Two adjacent spaces later in the text are ignored once the price has been read.
- A price written as `str(n)` is judged by the sign of `n`. Zero is refused with the "negative" message.
- The echo repeats the piece as typed: `"007"`, `"1_000"` or `"+5\n"`, not `str(int(piece))`.
- Every outcome sends at most one reply, and `ParseError` sends none.
- The example messages `/adicionar`, `/adicionar -5`, `/adicionar 0`, `/adicionar 100`, `/adicionar abc` and `/adicionar 5 reais` are evaluated in lemmas of their own.

`add` splits on the single space character (`split(" ")`) and not on any white space, so two adjacent spaces give an empty piece. The base model declares eleven columns (model/base_model.py:22-39).

Files:

- `wrappers.dfy`: `Option` and `Result`.
- `base_model.dfy`: module `BaseModel`.
- `base_model_properties.dfy`: module `BaseModelProperties`.
- `py_builtins.dfy`: module `PyBuiltins`.
- `telegram_bot.dfy`: module `TelegramBot`.

## Model

| member | source | states |
|---|---|---|
| BaseModel.ColumnNamed | model/base_model.py:22-39 | an attribute name denotes the column whose name it is, or no column at all |
| BaseModel.ColumnNamedKey | model/base_model.py:22-39 | the attribute name of every column leads back to that column, so the eleven names are distinct |
| BaseModel.KeyInjective | model/base_model.py:22-39 | no two columns share an attribute name |
| BaseModel.ColumnsListed | model/base_model.py:22-39 | the declaration-order column list holds every column exactly once |
| BaseModel.Fields.Get | model/base_model.py:22-39 | reading a column yields a value of the column's declared `Mapped[...]` type |
| BaseModel.Fields.Set | model/base_model.py:66-67 | `setattr` of a column gives that column the value and leaves every other column as it was |
| BaseModel.Defaults | model/base_model.py:22-39 | a default record is created by "System" at `utcnow()`, has no other author or time, is active and not deleted, and satisfies both invariants |
| BaseModel.Record.constructor | model/base_model.py:22-39 | a new record's columns are the defaults |
| BaseModel.Fields.Activated | model/base_model.py:45-48 | `soft_activate(by)` makes the record active, activated at `utcnow()` by `by`; no column outside the activation triple changes; the activation invariant holds afterwards and the deletion invariant is kept |
| BaseModel.Fields.ActivationRestored | model/base_model.py:50-53 | `restore_activate()` makes the record inactive with no activation time or author; no other column changes; both invariants are kept |
| BaseModel.Fields.SoftDeleted | model/base_model.py:55-58 | `soft_delete(by)` marks the record deleted at `utcnow()` by `by`; no column outside the deletion triple changes; the deletion invariant holds afterwards and the activation invariant is kept |
| BaseModel.Fields.DeleteRestored | model/base_model.py:60-63 | `restore_delete()` clears the deletion triple; no other column changes; both invariants are kept |
| BaseModel.Record.SoftActivate | model/base_model.py:45-48 | the method (whose author defaults to `None`) sets `is_active`, `activated_at` and `activated_by` in place; the record's new columns are `Activated(by)` of the old ones; a consistent record stays consistent |
| BaseModel.Record.RestoreActivate | model/base_model.py:50-53 | the method clears the activation triple in place; the new columns are `ActivationRestored()` of the old; consistency is kept |
| BaseModel.Record.SoftDelete | model/base_model.py:55-58 | the method (whose author defaults to `None`) sets the deletion triple in place; the new columns are `SoftDeleted(by)` of the old; consistency is kept |
| BaseModel.Record.RestoreDelete | model/base_model.py:60-63 | the method clears the deletion triple in place; the new columns are `DeleteRestored()` of the old; consistency is kept |
| BaseModel.Fields.AsDict | model/base_model.py:41-43 | `as_dict()` has one entry per column, in declaration order, keyed by the column's attribute name, with distinct keys; looking up any column's name yields its current value |
| BaseModel.Fields.EntriesShape | model/base_model.py:43 | the dictionary built for distinct columns has one entry per column, distinct keys, and a lookup that finds exactly those columns' values |
| BaseModel.Put | model/base_model.py:67 | one `setattr(self, key, value)` gives the column named `key` the value and leaves every other column as it was; a key that names no column changes no column |
| BaseModel.Assign | model/base_model.py:66-67 | the `setattr` loop over the keyword arguments leaves every column that no keyword names as it was |
| BaseModel.Init | model/base_model.py:65-68 | `BaseModel(**kwargs)` raises exactly when some keyword names no column, and the keyword it reports names no column; on success every column that no keyword names holds its default |
| BaseModel.FirstUnknown | model/base_model.py:68 | the declarative constructor refuses no keyword if and only if every keyword names a column; a refused key names no column |
| BaseModel.FirstUnknownIsFirst | model/base_model.py:68 | the refused keyword is the first one that names no column |
| BaseModel.Record.New | model/base_model.py:65-68 | `BaseModel(**kwargs)` succeeds exactly when the keyword model `Init` does; it then returns a fresh record whose columns are `Init`'s; on failure it raises `TypeError` naming the same keyword |
| BaseModel.Record.SetAttr | model/base_model.py:66-67 | `setattr(self, key, value)` on a column changes the record as `Fields.Set` says and nothing else |
| BaseModelProperties.InitValues | model/base_model.py:65-68 | after `BaseModel(**kwargs)`, each column holds the keyword argument named after it, or its default when there is none |
| BaseModelProperties.AssignGet | model/base_model.py:66-67 | the `setattr` loop over distinct keywords leaves each column with the argument named after it, otherwise unchanged |
| BaseModelProperties.UnknownKeywordRaises | model/base_model.py:68 | a keyword that names no column makes the constructor raise `TypeError`, naming a keyword that is no column |
| BaseModelProperties.KeywordBreaksDeletionConsistency | model/base_model.py:65-68 | `BaseModel(is_deleted=True)` succeeds and gives a record that is deleted without a deletion time |
| BaseModelProperties.InitWithoutMarkersConsistent | model/base_model.py:30-68 | a record built from keyword arguments that name neither triple satisfies both invariants |
| BaseModelProperties.AsDictRoundTrip | model/base_model.py:41-68 | `BaseModel(**r.as_dict())` succeeds and has exactly the columns of `r`, whatever id the default would have drawn |
| BaseModelProperties.RunPreservesConsistency | model/base_model.py:45-63 | any sequence of the four lifecycle calls keeps both invariants of a consistent record |
| BaseModelProperties.DefaultsStayConsistent | model/base_model.py:30-63 | a record with the default columns satisfies both invariants after any sequence of lifecycle calls |
| BaseModelProperties.RunKeepsAuditColumns | model/base_model.py:45-63 | no sequence of lifecycle calls changes `id`, `created_*` or `updated_*` |
| BaseModelProperties.DeletionCallsKeepActivation | model/base_model.py:55-63 | calls of `soft_delete` and `restore_delete` leave the activation triple as it was |
| BaseModelProperties.ActivationCallsKeepDeletion | model/base_model.py:45-53 | calls of `soft_activate` and `restore_activate` leave the deletion triple as it was |
| BaseModelProperties.TriplesCommute | model/base_model.py:45-63 | a deletion call and an activation call give the same record in either order |
| BaseModelProperties.RestoreDeleteIdempotent | model/base_model.py:60-63 | `restore_delete()` twice equals once |
| BaseModelProperties.RestoreActivateIdempotent | model/base_model.py:50-53 | `restore_activate()` twice equals once |
| BaseModelProperties.RestoreUndoesSoftDelete | model/base_model.py:55-63 | `soft_delete` then `restore_delete` equals `restore_delete` alone, and gives back a record whose deletion triple was clear (not deleted, no deletion time or author) |
| BaseModelProperties.RestoreUndoesSoftActivate | model/base_model.py:45-53 | `soft_activate` then `restore_activate` equals `restore_activate` alone, and gives back a record whose activation triple was clear (inactive, no activation time or author) |
| BaseModelProperties.SoftDeleteLastWins | model/base_model.py:55-58 | a second `soft_delete` overrides the first: the record is as after the second alone |
| BaseModelProperties.SoftActivateLastWins | model/base_model.py:45-48 | a second `soft_activate` overrides the first |
| PyBuiltins.Split | interface/telegram-bot.py:16 | `split(" ")` never returns an empty list |
| PyBuiltins.SplitShape | interface/telegram-bot.py:16 | `split(" ")` gives one piece exactly when the text has no space; no piece holds a space; joining the pieces with single spaces gives the text back |
| PyBuiltins.SplitAround | interface/telegram-bot.py:16 | a space splits the text exactly there: the pieces of `a + " " + b` are those of `a` followed by those of `b` |
| PyBuiltins.SplitJoin | interface/telegram-bot.py:16 | splitting undoes joining with spaces, for pieces without spaces |
| PyBuiltins.Int | interface/telegram-bot.py:24 | `int(x)` yields a value only when `x` holds a decimal digit |
| PyBuiltins.TrimStartShape | interface/telegram-bot.py:24 | `int` skips a prefix made only of white space and stops at a character that is not white space |
| PyBuiltins.TrimEndShape | interface/telegram-bot.py:24 | `int` skips a suffix made only of white space and stops at a character that is not white space |
| PyBuiltins.StripKeeps | interface/telegram-bot.py:24 | stripping white space keeps every other character |
| PyBuiltins.IntOfGroups | interface/telegram-bot.py:24 | `int` of unsigned digit groups is their decimal value |
| PyBuiltins.IntOfSignedGroups | interface/telegram-bot.py:24 | `int("-" + x)` and `int("+" + x)` are the negated and the plain value of the digit groups `x` |
| PyBuiltins.UnderscoreIgnored | interface/telegram-bot.py:24 | an underscore between digit groups changes nothing: `int("1_000") == int("1000")` |
| PyBuiltins.LeadingDigitPositive | interface/telegram-bot.py:24 | digits that do not start with `0` have a positive value |
| PyBuiltins.TrailingSpaceIgnored | interface/telegram-bot.py:24 | white space after the number does not change `int` |
| PyBuiltins.ForeignCharRaises | interface/telegram-bot.py:24 | a character that is no digit, underscore, sign or white space makes `int` raise |
| PyBuiltins.NatDigitsValue | interface/telegram-bot.py:24 | the decimal digits of `n` have the value `n` |
| PyBuiltins.IntStr | interface/telegram-bot.py:24 | `int(str(n)) == n` for every integer `n` |
| TelegramBot.Start | interface/telegram-bot.py:9-10 | `start` sends the fixed greeting, whatever the message |
| TelegramBot.Help | interface/telegram-bot.py:12-13 | `help` sends the fixed instructions, whatever the message |
| TelegramBot.AddOutcome.Replies | interface/telegram-bot.py:18-28 | every outcome sends at most one reply; none exactly when `int` raises; an echo is the fixed prefix followed by the price as typed |
| TelegramBot.Judge | interface/telegram-bot.py:22-28 | the second piece is kept as typed in every outcome; `int(piece)` raising gives `ParseError`; a value `<= 0` gives the refusal, carrying that value; a value `> 0` gives the echo |
| TelegramBot.Add | interface/telegram-bot.py:16-20 | `add` asks for a value exactly when the text holds no space |
| TelegramBot.AddReadsSecondPiece | interface/telegram-bot.py:16-22 | the outcome is decided by the second piece alone, whatever follows it after a space |
| TelegramBot.AddIgnoresLaterPieces | interface/telegram-bot.py:16-22 | once the text has a second piece, appending `" " + more` does not change the outcome |
| TelegramBot.DoubleSpaceRaises | interface/telegram-bot.py:16-24 | two spaces after the command give an empty second piece; `int("")` raises and nothing is sent |
| TelegramBot.AddOfStr | interface/telegram-bot.py:22-28 | for a price written as `str(n)`, `n <= 0` is refused and `n > 0` is echoed |
| TelegramBot.ForeignPriceRaises | interface/telegram-bot.py:22-24 | a price holding a character no number can hold makes `add` raise |
| TelegramBot.AddCommandWith | interface/telegram-bot.py:16-22 | `"/adicionar " + price` with a price without spaces is judged by that price |
| TelegramBot.NoArgumentAsksForValue | interface/telegram-bot.py:16-20 | `/adicionar` alone gets the "value required" reply |
| TelegramBot.JudgeMinusFive | interface/telegram-bot.py:24-26 | the piece `-5` is refused as not positive |
| TelegramBot.JudgeZero | interface/telegram-bot.py:24-26 | the piece `0` is refused as not positive |
| TelegramBot.JudgeFive | interface/telegram-bot.py:24-28 | the piece `5` is echoed |
| TelegramBot.JudgeLeadingZeros | interface/telegram-bot.py:24-28 | the piece `007` is echoed |
| TelegramBot.JudgeHundred | interface/telegram-bot.py:24-28 | the piece `100` is echoed |
| TelegramBot.JudgeUnderscore | interface/telegram-bot.py:24-28 | the piece `1_000` is echoed |
| TelegramBot.JudgeTrailingNewline | interface/telegram-bot.py:24-28 | the piece `+5` followed by a newline is echoed |
| TelegramBot.NegativeIsRefused | interface/telegram-bot.py:24-26 | `/adicionar -5` gets "O valor da sua transação não pode ser negativo." |
| TelegramBot.ZeroIsRefused | interface/telegram-bot.py:24-26 | `/adicionar 0` is refused like a negative value |
| TelegramBot.PositiveIsEchoed | interface/telegram-bot.py:28 | `/adicionar 100` gets "O valor da sua transação é: 100" |
| TelegramBot.EchoKeepsTypedText | interface/telegram-bot.py:22-28 | the echo repeats `007`, `1_000` and `+5` with a newline as typed, not as `str(int(piece))` |
| TelegramBot.WordRaises | interface/telegram-bot.py:24 | `/adicionar abc` makes the handler raise without a reply |
| TelegramBot.ExtraPiecesIgnored | interface/telegram-bot.py:16-22 | `/adicionar 5 reais` is judged by `5` alone |

## Left out

- BaseModel.Record.New: requires keyword values of the declared column types (`WellTyped`). Python stores a value of any type, and a wrongly typed value would only fail when the row is flushed.
- BaseModel.Init: the same precondition as `Record.New`.
- BaseModel.Assign: the same precondition as `Record.New`.
- BaseModel.Put: requires a value of the declared type when the key names a column, for the same reason.
- BaseModel.Record.SetAttr: requires a value of the column's declared type, for the same reason.
- BaseModel.Fields.Set: requires a value of the column's declared type, for the same reason.
- BaseModel.Record.New: `__init__` sets every keyword on the instance first, so an unknown keyword is stored there before `TypeError` is raised. The object is discarded by the raise, so the model returns only the error. The declarative constructor sets each valid keyword a second time, to the same value. That second pass is not modelled.
- BaseModel.FirstUnknown: a keyword that names a non-column attribute of the class is accepted by Python and shadows that attribute on the instance. Examples are a method name, `registry` or `metadata`. The model treats every non-column keyword as invalid. Subclass columns are not part of the base model.
- BaseModelProperties.InitValues: proved for distinct keys only, which a Python `**kwargs` dictionary always has.
- Column defaults are SQLAlchemy insert-time defaults. The model takes them as the initial values of a new record.
- `onupdate=func.utcnow()` hooks are not modelled. They would stamp `updated_at`, `deleted_at` and `activated_at` on every UPDATE of the row that does not set the column itself. For example, an update of a record that is not deleted would set `deleted_at` while `is_deleted` stays false.
- Persistence is not modelled: the session, flush, queries, the declarative registry, mapper introspection and `__abstract__`.
- Column metadata is not modelled: the primary key, indexes, nullability and comments.
- The randomness of `uuid.uuid4` is not modelled: the id is a parameter.
- PyBuiltins.Int: Python's `int` also accepts non-ASCII decimal digits, such as Arabic-Indic digits. Those are not modelled, so a price written with them is modelled as `ParseError`; `ForeignCharRaises` treats them as foreign characters.
- The 4300-digit limit of `int` on strings is not modelled. A Telegram message is at most 4096 characters long, so the limit cannot be reached.
- Bot wiring is not modelled: `load_dotenv`, the token lookup, `Application.builder`, handler registration and `run_polling`. The asynchronous `reply_text` network calls are modelled only as the list of texts a handler would send.
- TelegramBot.Add: takes the message text as a string. An update without a message or without text raises `AttributeError` in Python; that case is not modelled.
- `services/settings.py` is not part of this model: environment settings and the database URL.
- `model/models.py` is not part of this model: the engine set-up.
