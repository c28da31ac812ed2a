# vod_converter worker, modelled in Dafny

The worker takes conversion jobs off a queue. Each job names a video id, a
file name and a target resolution. The worker derives where the source file
is and where the converted copy goes, runs an external conversion script,
and, only if the script exits with status 0, pushes a descriptor of the new
HLS source onto the video's `source` list in the document store.

This project models that job path in `main.py`:

- `py_text.dfy` (module `PyText`): the two Python library functions the
  path derivation relies on. `os.path.splitext` on POSIX paths splits at
  the last '.' of the base name, unless only dots come before that '.' in
  the base name. `str` renders an integer in decimal.
- `paths.dfy` (module `Paths`): `get_input_output_location` and the two
  configuration values, which become a `Config` parameter.
- `transcode.dfy` (module `Transcode`): the `RESOLUTIONS` table, the
  argument list given to `./convert.sh`, and `convert_video_resolution`.
  The external process becomes a parameter `transcoder: seq<string> -> int`,
  which maps the argument list to the process's exit status.
- `store.dfy` (module `Store`): the collection as a class `VideoCollection`.
  Its field `sources` maps each `video_id` to that record's `source` list.
  `FindOneAndPush` performs `find_one_and_update` with `$push`. The pure
  function `Pushed` specifies it.
- `worker.dfy` (module `Worker`): the descriptor, `update_video_resolution_in_db`
  and `run_convert_task` with its convert-then-record order.

Choices the model takes from the code:

- The scale strings are "640:360", "1280:720" and "1920:1080", exactly as
  in `RESOLUTIONS`.
- The URL keeps the ",.urlset/master.m3u8" suffix that the code writes.
- An unknown resolution is not a reported error. The code passes `None` to
  `subprocess.call`, which raises, so the model makes a known resolution a
  precondition.
- A push onto a missing `video_id` is a silent no-op, not an error. The
  model leaves the store unchanged.

## Model

| member | source | states |
|---|---|---|
| `PyText.LastIndexOf` | main.py:33 | the index of the last occurrence of the character, or -1; no later position holds it |
| `PyText.SplitExt` | main.py:33 | stem + extension is exactly the file name; the extension is empty or a '.' followed by characters that are neither '.' nor '/' |
| `PyText.SplitExtNonEmptyIff` | main.py:33 | the extension is non-empty exactly when the base name has a '.' after some non-dot character (leading dots never start an extension) |
| `PyText.SplitExtInsertBeforeExtension` | main.py:33 | splitting stem + mid + extension, with mid free of '.' and '/', gives back (stem + mid, extension) |
| `PyText.NatToString` | main.py:38 | `str` of a natural number is a non-empty digit string, without a leading zero, one character long exactly below 10 |
| `PyText.IntToString` | main.py:38 | `str` of an integer is non-empty, holds no '.' or '/', and starts with '-' exactly for negative values |
| `PyText.ParseNatToString` | main.py:58 | reading the digits of `str(n)` back gives n |
| `PyText.ParseIntToString` | main.py:58 | reading `str(n)` back gives n for every integer, so the label text determines the resolution |
| `PyText.IntToStringInjective` | main.py:38 | different resolutions render as different text |
| `Paths.GetInputOutputLocation` | main.py:32-40 | the input file is `<root>/<video_id>/<filename>`; the output file is the same folder + `/` + the output name; the output name is 1 + len(str(resolution)) longer than the file name, so the output file is never the input file |
| `Paths.OutputNameParts` | main.py:33-38 | the output name is stem + "_" + str(resolution) + extension, taken from the split of the file name |
| `Paths.OutputNameKeepsExtension` | main.py:33-39 | splitting the output name gives (stem + "_" + str(resolution), the input's extension): the converted file keeps the input's extension |
| `Paths.OutputFilesDistinctPerResolution` | main.py:36-39 | two jobs for the same file at different resolutions never write the same output file |
| `Paths.ExampleLocation` | main.py:28-40 | video "abc", file "movie.mp4", 720, default root: input `./videos/abc/movie.mp4`, output `./videos/abc/movie_720.mp4`, name `movie_720.mp4` |
| `Transcode.ResolutionTableIsSixteenByNine` | main.py:27 | every table entry reads `<width>:<resolution>` with width = resolution * 16 / 9, exactly |
| `Transcode.ConvertCommand` | main.py:43-48 | the script gets four arguments: `./convert.sh`, the input file, the table's scale string for the resolution, the output file; the input and output arguments differ |
| `Transcode.ConvertVideoResolution` | main.py:42-49 | the conversion succeeds exactly when the script run on that command exits with status 0 |
| `Store.Pushed` | main.py:61-64 | a push keeps the set of records; on an existing record it appends exactly the descriptor at the end and keeps the earlier entries in order; other records are unchanged; a missing id leaves the whole collection unchanged |
| `Store.PushTwiceKeepsBoth` | main.py:61-64 | pushing the same descriptor twice leaves two copies, so the result differs from one push: the push is not idempotent |
| `Store.VideoCollection.FindOneAndPush` | main.py:61-64 | the collection afterwards is `Pushed` of the collection before |
| `Worker.MakeDescriptor` | main.py:53-60 | `res` is the resolution and `label` is exactly `str(resolution)`, which reads back as it; `type` is "application/x-mpegURL"; `src` is `<base url>/hls/<video_id>/<output name>,.urlset/master.m3u8` |
| `Worker.DescriptorsDistinctPerResolution` | main.py:55-60 | descriptors for the same file at different resolutions differ in `src` and in `label` |
| `Worker.UpdateVideoResolutionInDb` | main.py:51-64 | the collection afterwards is one push of the job's descriptor onto the video's record |
| `Worker.RunConvertTask` | main.py:66-75 | a nonzero exit status leaves the store exactly as it was; status 0 leaves it as exactly one push of the job's descriptor |
| `Worker.RedeliverAfterSuccess` | main.py:66-75 | running a successful job a second time leaves the store as two pushes of the job's descriptor: the record set and every other record are unchanged, and the job's record ends with two copies of the descriptor appended |
| `Worker.ExampleDescriptor` | main.py:29-60 | video "v1", file "a.mov", 360, default base URL: `src` is `http://localhost:4000/hls/v1/a_360.mov,.urlset/master.m3u8`, label "360", res 360 |

## Left out

- Reading the environment (main.py:11-14, 28-29): the storage root and the base URL are the `Config` parameter; `DefaultConfig` holds the code's defaults. The store host, port, database and collection names only select the connection and are not modelled.
- The MongoDB client, database and collection lookup (main.py:15-17): the store is the `VideoCollection` object passed in.
- Logging (main.py:19-24, 46, 52, 75, 80): side effects only.
- The `./convert.sh` process (main.py:48): a foreign process. It is the `transcoder` parameter, so any exit status, and any files it writes, are outside the model.
- `callback`, `json.loads` and the `Rabbit` consumer loop (main.py:77-87): broker I/O and a parser from the library; the `rabbit` module is not part of this model. A job is the `Job` datatype.
- Missing message fields (`data.get` returning `None`) and a resolution outside the table: the code has no defined outcome there (it raises inside `subprocess.call`), so these are excluded by the field types of `Job` and by the precondition `job.resolution in Resolutions`.
- A float resolution equal to a table key (a JSON `720.0`): `RESOLUTIONS.get` at main.py:45 finds it, since `720.0 == 720`, so the code runs the job and renders it with ".0" in the output name (`movie_720.0.mp4`, main.py:38) and in the label (`"720.0"`, main.py:58), and stores `res` as the float. The model's `Job.resolution` is an `int`, so this case is not modelled.
- Other fields of a video record, several records with the same `video_id`, a record with no `source` field, and a `source` field that is not a list: the model keeps one `source` list per id. `find_one_and_update` updates only the first match, which is the one record of the model.
- Store transport failures and concurrent or redelivered jobs running at the same time: the code is one sequential callback. Redelivery after success is shown sequentially by `Worker.RedeliverAfterSuccess`.
- The Windows flavour of `os.path.splitext`: the model is the POSIX one (separator '/', no alternative separator), as on the platform the worker runs on.
