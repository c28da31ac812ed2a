/** Per-job path derivation: where the worker reads a video and where the
    converted copy for one resolution is written. */
module Paths {
  import opened PyText

  /** The two settings the worker reads from its environment. */
  datatype Config = Config(baseVideosFolder: string, baseVideoUrl: string)

  /** The values used when the environment does not set them. */
  const DefaultConfig := Config("./videos", "http://localhost:4000")

  /** What `get_input_output_location` returns. */
  datatype PathSet = PathSet(inputFile: string, outputFile: string, outputName: string)

  /** The directory that holds every file of one video, followed by '/'. */
  function VideoDir(cfg: Config, videoId: string): string
  {
    cfg.baseVideosFolder + "/" + videoId + "/"
  }

  /** `get_input_output_location(video_id, filename, resolution)`: the input
      file and the output file both sit in the video's directory; the output
      name is the file name with "_<resolution>" put in front of its
      extension. */
  function GetInputOutputLocation(cfg: Config, videoId: string, filename: string, resolution: int): (r: PathSet)
    ensures r.inputFile == VideoDir(cfg, videoId) + filename
    ensures r.outputFile == VideoDir(cfg, videoId) + r.outputName
    ensures |r.outputName| == |filename| + 1 + |IntToString(resolution)|
    ensures r.outputFile != r.inputFile
  {
    var (fname, extension) := SplitExt(filename);
    var videoFolder := cfg.baseVideosFolder + "/" + videoId;
    var outputName := fname + "_" + IntToString(resolution) + extension;
    assert videoFolder + "/" + filename == VideoDir(cfg, videoId) + filename;
    assert videoFolder + "/" + outputName == VideoDir(cfg, videoId) + outputName;
    PathSet(videoFolder + "/" + filename, videoFolder + "/" + outputName, outputName)
  }

  /** The output name, spelled out from the split of the file name. */
  lemma OutputNameParts(cfg: Config, videoId: string, filename: string, resolution: int)
    ensures GetInputOutputLocation(cfg, videoId, filename, resolution).outputName
            == SplitExt(filename).0 + ("_" + IntToString(resolution)) + SplitExt(filename).1
  {
    var (stem, ext) := SplitExt(filename);
    assert stem + "_" + IntToString(resolution) + ext == stem + ("_" + IntToString(resolution)) + ext;
  }

  /** The output keeps the input's extension (and so its container format):
      splitting the output name gives the input's stem with "_<resolution>"
      appended, and the input's extension. */
  lemma OutputNameKeepsExtension(cfg: Config, videoId: string, filename: string, resolution: int)
    ensures SplitExt(GetInputOutputLocation(cfg, videoId, filename, resolution).outputName)
            == (SplitExt(filename).0 + ("_" + IntToString(resolution)), SplitExt(filename).1)
  {
    var mid := "_" + IntToString(resolution);
    assert mid[1..] == IntToString(resolution);
    assert '.' !in mid && '/' !in mid;
    SplitExtInsertBeforeExtension(filename, mid);
    OutputNameParts(cfg, videoId, filename, resolution);
  }

  /** Jobs for the same file at different resolutions never write to the same
      output file. */
  lemma OutputFilesDistinctPerResolution(cfg: Config, videoId: string, filename: string, res1: int, res2: int)
    requires res1 != res2
    ensures GetInputOutputLocation(cfg, videoId, filename, res1).outputFile
         != GetInputOutputLocation(cfg, videoId, filename, res2).outputFile
  {
    var stem, ext := SplitExt(filename).0, SplitExt(filename).1;
    var d1, d2 := IntToString(res1), IntToString(res2);
    var p1 := GetInputOutputLocation(cfg, videoId, filename, res1);
    var p2 := GetInputOutputLocation(cfg, videoId, filename, res2);
    OutputNameParts(cfg, videoId, filename, res1);
    OutputNameParts(cfg, videoId, filename, res2);
    assert p1.outputFile == VideoDir(cfg, videoId) + stem + ("_" + d1) + ext;
    assert p2.outputFile == VideoDir(cfg, videoId) + stem + ("_" + d2) + ext;
    MiddleCancel(VideoDir(cfg, videoId) + stem, "_" + d1, "_" + d2, ext);
    if "_" + d1 == "_" + d2 {
      assert d1 == ("_" + d1)[1..] && d2 == ("_" + d2)[1..];
      IntToStringInjective(res1, res2);
    }
  }

  /** The worked example: "movie.mp4" of video "abc" at 720 under the default
      storage root. */
  lemma ExampleLocation()
    ensures GetInputOutputLocation(DefaultConfig, "abc", "movie.mp4", 720)
            == PathSet("./videos/abc/movie.mp4", "./videos/abc/movie_720.mp4", "movie_720.mp4")
  {
    MovieOutputName();
    MovieText();
  }

  lemma MovieOutputName()
    ensures GetInputOutputLocation(DefaultConfig, "abc", "movie.mp4", 720).outputName == "movie_720.mp4"
  {
    SplitMovie();
    DecimalOf720();
    OutputNameFrom(DefaultConfig, "abc", "movie.mp4", 720, "movie", ".mp4", "720");
    MovieText();
  }

  lemma MovieText()
    ensures "movie" + ("_" + "720") + ".mp4" == "movie_720.mp4"
    ensures "./videos" + "/" + "abc" + "/" == "./videos/abc/"
    ensures "./videos/abc/" + "movie.mp4" == "./videos/abc/movie.mp4"
    ensures "./videos/abc/" + "movie_720.mp4" == "./videos/abc/movie_720.mp4"
  {
  }

  /** The output name once the split and the decimal rendering are known. */
  lemma OutputNameFrom(cfg: Config, videoId: string, filename: string, resolution: int,
                       stem: string, ext: string, digits: string)
    requires SplitExt(filename) == (stem, ext) && IntToString(resolution) == digits
    ensures GetInputOutputLocation(cfg, videoId, filename, resolution).outputName
            == stem + ("_" + digits) + ext
  {
    OutputNameParts(cfg, videoId, filename, resolution);
  }

  lemma DecimalOf720()
    ensures IntToString(720) == "720"
  {
    assert NatToString(7) == "7";
    assert NatToString(72) == "72";
    assert NatToString(720) == "720";
  }

  lemma SplitMovie()
    ensures SplitExt("movie.mp4") == ("movie", ".mp4")
  {
    var p := "movie.mp4";
    SplitExtNonEmptyIff(p);
    assert p[4] != '.' && p[5] == '.' && InBaseName(p, 4);
    ExtensionSuffixUnique(SplitExt(p).0, SplitExt(p).1, "movie", ".mp4");
  }
}
