# grideye-store, modelled in Dafny

`grideye-store` is a Synerex provider that subscribes to GridEye sensor
supplies and writes every reading it receives, one comma-separated line per
reading, into a day-partitioned set of files `<storeDir>/<YYYY-MM-DD>.csv`.
This project models its two pieces of logic and proves what they promise:

- `FileSystemDataStore.store` (module `Store`). This is the rotating append
  store. Each call computes today's file name, closes the open file when the
  date has moved on, makes sure the directory exists, opens today's file for
  append if none is open, and writes the line and a newline. The class
  `FileSystemDataStore` keeps the source's fields `storeDir`, `storeFile`
  and `todayStr`; its method `Store` changes them step by step. It is proved
  to agree exactly with the reference function `StoreStep`. That function
  gives the new fields, the ordered system calls, the new disk, and whether
  the line was written.
- `supplyGridEyeCallback` (module `Callback`). This decodes one supply and
  calls `store` once per reading of the decoded event, in order. Each call
  gets the shared header prefix and the reading's own fields. The method has
  the source's loop, and its loop invariant ties the store's state to
  `Run`, the fold of `StoreStep` over the calls made so far (module
  `StoreHistory`). The line text is built by pure functions in module
  `Format`.

The operating system is an abstract class `Os` (module `OsModel`):
- The disk is a set of directories plus a map from path to file text.
- A ghost trace records every `Stat`, `MkdirAll`, `OpenFile`, `Close` and
  `Write`, in order.
- Whether `MkdirAll` and `OpenFile` succeed is an input.
- `Stat` succeeds exactly when the directory is on the disk.

The wall clock is an input: `Env.today`, the local date as `YYYY-MM-DD`.
`Env` also carries the two I/O outcomes for that call. For the callback,
`io(k)` is the environment seen by the k-th `store` call of the message.

Protobuf decoding is a partial function `unmarshal: Bytes -> Option<GridEye>`.
Two kinds of text are opaque parameters (`Renderers`):
- the timestamp text (`ptypes.TimestampString`, RFC 3339 section 5.6);
- the text of a single float under `%v`.

`%d` is modelled as decimal text. `%v` of a float slice is modelled as the
element texts, separated by single spaces, between brackets.

Three behaviours of the code shape the model:
- No file is open before the first call, and none after a failed
  `MkdirAll` or `OpenFile` (grideye-store.go:75-77, 82-84). So `Inv` says
  only that an open handle, if there is one, was opened for
  `storeDir + "/" + todayStr`.
- After a failed `MkdirAll` on a new date, `todayStr` keeps the old name
  (grideye-store.go:77 returns before line 80). Every later call then takes
  the rollover branch again until the directory check succeeds. Closing the
  nil handle again is a no-op in Go, so the model records no `Close` for it
  (`RolloverCheck`).
- After a failed `OpenFile`, `todayStr` already names today's file, but no
  file is open (grideye-store.go:80-84).

## Model

| member | source | states |
|---|---|---|
| OsModel.WithDir | grideye-store.go:74 | a successful `MkdirAll` adds the directory and leaves every file as it was |
| OsModel.Created | grideye-store.go:81 | opening with `O_CREATE` and `O_APPEND` makes the file exist and keeps the text of every file |
| OsModel.Appended | grideye-store.go:88 | an append in `O_APPEND` mode adds the data at the end of that one file, and every other file keeps its text |
| OsModel.Os.Stat | grideye-store.go:72-73 | `Stat` succeeds iff the directory exists; it changes nothing on disk and is recorded in the trace |
| OsModel.Os.MkdirAll | grideye-store.go:74-75 | the directory exists afterwards iff the call succeeded; the call is recorded with its outcome |
| OsModel.Os.OpenFile | grideye-store.go:81-82 | a handle for the path is returned iff the open succeeded, and the file then exists with its text kept; the call is recorded |
| OsModel.Os.Close | grideye-store.go:68 | closing changes no file and is recorded |
| OsModel.Os.WriteString | grideye-store.go:88 | the data is appended to the handle's file, and the write is recorded |
| Store.StoreStep | grideye-store.go:63-89 | one `store` call keeps the handle invariant; the line is written iff a handle is open afterwards, and that handle is then for today's file name |
| Store.StoreWritesLast | grideye-store.go:67-88 | every call makes a system call; the write, if any, is the last call, goes to `storeDir/<today>.csv` with `str + "\n"`, and nothing earlier writes |
| Store.StoreWritesWhen | grideye-store.go:67-88 | a call writes its line iff today's file is already open, or the directory exists or is created and today's file opens |
| Store.StoreWritesTodaysFile | grideye-store.go:66-88 | a successful call appends exactly `str + "\n"` to today's file, and no other file's text changes; a dropped line changes no file's text |
| Store.StoreRollover | grideye-store.go:64-81 | when `todayStr` is set and differs from today's name, the open handle is closed as the first call; nothing else is closed; any open comes after it and is for today's path |
| Store.StoreSameDayReuse | grideye-store.go:67-88 | with today's file already open, the only system call is the write, and the fields are unchanged |
| Store.OpenStepDirectory | grideye-store.go:72-79 | in the open path, `MkdirAll` is issued iff `Stat` reported the directory missing, and a successful `MkdirAll` leaves it existing |
| Store.StoreDirectoryCreation | grideye-store.go:72-74 | over a whole call, `MkdirAll` is made iff `Stat` failed; `Stat` reports the true state of the directory; a successful `MkdirAll` leaves the directory existing |
| Store.StoreMkdirFailure | grideye-store.go:73-78 | a failed `MkdirAll` drops the line, leaves no handle, `todayStr` and the disk unchanged, and the next call starts again with `Stat` and `MkdirAll` |
| Store.StoreOpenFailure | grideye-store.go:80-85 | a failed open drops the line and leaves no handle, with `todayStr` set to today's name; the next same-day call closes nothing, finds the directory and retries the open first |
| Store.StoreCreatesDirectory | grideye-store.go:71-88 | on a fresh store with the directory missing, a call with working I/O creates the directory and writes a non-empty today's file |
| Store.FileSystemDataStore.constructor | grideye-store.go:51-60 | a new store has the given directory, no handle and an empty `todayStr`, and satisfies the invariant |
| Store.FileSystemDataStore.DropStaleHandle | grideye-store.go:67-70 | on a date change, the handle (if any) is closed and cleared, exactly as `RolloverCheck` describes |
| Store.FileSystemDataStore.OpenTodaysFile | grideye-store.go:71-87 | with no handle open, the stat, mkdir, name update and open have exactly the effect `OpenStep` describes on the fields, the disk and the trace |
| Store.FileSystemDataStore.Store | grideye-store.go:63-89 | the method keeps the invariant, and its new fields, disk and system calls are exactly those of `StoreStep` on the old state |
| StoreHistory.Run | grideye-store.go:63-89 | a sequence of `store` calls keeps the handle invariant, collects the system calls in order, and reports one written-or-dropped outcome per call |
| StoreHistory.RunStoresAll | grideye-store.go:67-88 | when every directory check and open succeeds, every call of a run writes its line |
| StoreHistory.RunKeepsEveryLine | grideye-store.go:64-88 | no line is lost across a rollover: with working I/O, a date's file receives every line stored on that date, once each, in call order, and nothing else |
| StoreHistory.RunSnoc | grideye-store.go:63-89 | one more call extends a run by exactly one `StoreStep` |
| StoreHistory.RunAppendsLanded | grideye-store.go:88 | after any sequence of calls, each file holds its old text followed by the lines that written calls sent to it, in call order |
| StoreHistory.DayPathsDistinct | grideye-store.go:66-81 | different dates give different file paths in the same directory |
| StoreHistory.LandedIsDayLines | grideye-store.go:66-88 | the lines that land in a date's file are exactly the lines written on that date |
| StoreHistory.RunKeepsDaysApart | grideye-store.go:64-88 | rollover boundary: after any calls, a date's file holds its old text followed by exactly the lines written on that date, in order, and no line from another date |
| Format.Split | grideye-store.go:105 | splitting a line on commas gives at least one field, and no field contains a comma |
| Format.JoinSplit | grideye-store.go:105 | comma-joining the fields of any split gives back the text |
| Format.SplitAfterField | grideye-store.go:105 | splitting a comma-free field, a comma and a rest gives that field and then the split of the rest |
| Format.SplitOneField | grideye-store.go:105 | a comma-free text splits into itself alone |
| Format.SplitJoin | grideye-store.go:105 | a non-empty field list splits back from its comma-join iff no field contains a comma |
| Format.JoinAppend | grideye-store.go:100-105 | joining two non-empty field lists is the two joins with a separator between |
| Format.JoinNoComma | grideye-store.go:105 | joining comma-free texts with a separator other than a comma gives comma-free text |
| Format.FormatNat | grideye-store.go:100-105 | a natural number's decimal text is non-empty digits with no leading zero |
| Format.FormatInt | grideye-store.go:100-105 | `%d` text contains no comma |
| Format.ParseFormatNat | grideye-store.go:100-105 | decimal text reads back as the number |
| Format.FormatIntRoundTrip | grideye-store.go:100-105 | the `%d` text of every integer, negatives included, reads back as that integer |
| Format.RenderNumbers | grideye-store.go:105 | `%v` of a float slice is bracketed, and it has no comma when no element text has one |
| Format.EventLines | grideye-store.go:100-107 | an event yields exactly one line per reading |
| Format.LineIsJoinedFields | grideye-store.go:100-105 | a line is the seven header fields followed by the six reading fields, comma-joined |
| Format.LineSplitsIntoFields | grideye-store.go:100-105 | when no text field contains a comma, a line splits back into exactly its thirteen fields |
| Format.LineAmbiguousWithComma | grideye-store.go:100-105 | with no escaping, a comma inside any text field makes the line split into something other than its fields |
| Format.NumbersClean | grideye-store.go:105 | a `%v` list text without a comma has no comma in any element text |
| Format.JoinContains | grideye-store.go:105 | every character of a field appears in the joined text |
| Callback.StoreNext | grideye-store.go:106 | one `ds.store(line)` call extends the run of the message's calls by that call: the store's fields, the disk and the system calls made are those of the extended run, and the store receives the line |
| Callback.SupplyGridEyeCallback | grideye-store.go:91-109 | an undecodable message changes nothing; a decoded one hands the store exactly the event's lines, in `Data` order, and leaves the store, the disk and the sequence of system calls made as the fold of `StoreStep` over those calls, so nothing else touches the files |
| Callback.FanOut | grideye-store.go:100-107 | an event with N readings gives N lines; line k is the header fields and reading k's fields, comma-joined, and it splits back into them when the text is comma-free |
| Callback.ExampleNumbers | grideye-store.go:105 | `%v` of `[1 2]` and of an empty slice, with the example's number texts |
| Callback.ExampleLine | grideye-store.go:100-107 | a worked event with one reading yields one line made of the thirteen expected fields, and that line splits back into them |
| Callback.ExampleFile | grideye-store.go:63-89 | on a fresh store with `store` missing, one call on 2024-01-01 creates the directory and a `store/2024-01-01.csv` holding exactly the line and a newline |

## Left out

- `init` and `main` (grideye-store.go:39-54, 141-177): flag parsing, the working-directory lookup, node registration, the first connection and the fatal exits are process start-up that depends on external services. The model starts from a constructed store.
- `subscribeGridEyeSupply` and `reconnectClient` (grideye-store.go:111-139): the endless subscribe loop and the mutex-guarded reconnect are concurrency and transport recovery inside a foreign library. `SupplyGridEyeCallback` models one delivered supply.
- The `DataStore` interface (grideye-store.go:24-26) is represented by its only implementation, `FileSystemDataStore`.
- `proto.Unmarshal` is the parameter `unmarshal`. The timestamp round trip through `time.Time` (grideye-store.go:97-99, 102-104) is inside the opaque `Renderers.timestamp`, and its ignored errors are not modelled.
- `Format.RenderNumbers`: the text of each float32 under `%v` is the opaque `Renderers.number`. Only the list structure (brackets and spaces) is modelled, because floating-point formatting is out of scope.
- `time.Now()` and the `2006-01-02` layout (grideye-store.go:64-66) become `Env.today`. The model does not check that it is a well-formed date; only the fact that distinct dates are distinct strings is used.
- `filepath.FromSlash` (grideye-store.go:81) is the identity on systems whose separator is `/`, and it is treated that way.
- `MkdirAll` creating missing parent directories, and the permission bits `0777` and `0666`, are not modelled. The disk records only the store directory and the files.
- `WriteString` errors (grideye-store.go:88) are ignored by the source. The model lets every write succeed.
- `Close` on a nil `*os.File` (grideye-store.go:68, when no file is open) returns an error in Go and does nothing else. The model makes no call for it.
- Console output from `fmt.Printf` and `log.Printf` has no effect on behaviour and is left out.
- Concurrency: the store assumes one caller at a time, and so does the model.
