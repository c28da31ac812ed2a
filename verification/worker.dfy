/** One conversion job from start to finish: convert first, and record the
    new source in the store only when the conversion succeeded. */
module Worker {
  import opened PyText
  import opened Paths
  import opened Transcode
  import opened Store

  /** The fields of one queue message. */
  datatype Job = Job(videoId: string, filename: string, resolution: int)

  /** The media type recorded for every converted source (an HLS playlist). */
  const HlsMediaType := "application/x-mpegURL"

  /** What follows the output name in a source's URL. */
  const UrlSetSuffix := ",.urlset/master.m3u8"

  /** The descriptor `update_video_resolution_in_db` pushes: the HLS URL of
      the converted file, its media type, and the resolution both as text
      and as a number, the text reading back as the number. */
  function MakeDescriptor(cfg: Config, videoId: string, filename: string, resolution: int): (d: Descriptor)
    ensures d.res == resolution && d.labelText == IntToString(resolution)
    ensures ParseInt(d.labelText) == d.res
    ensures d.mediaType == HlsMediaType
    ensures d.src == cfg.baseVideoUrl + "/hls/" + videoId + "/"
                     + GetInputOutputLocation(cfg, videoId, filename, resolution).outputName
                     + UrlSetSuffix
  {
    ParseIntToString(resolution);
    var outputName := GetInputOutputLocation(cfg, videoId, filename, resolution).outputName;
    Descriptor(cfg.baseVideoUrl + "/hls/" + videoId + "/" + outputName + UrlSetSuffix,
               HlsMediaType, IntToString(resolution), resolution)
  }

  /** Descriptors for the same file at different resolutions are told apart
      by their URL and by their label. */
  lemma DescriptorsDistinctPerResolution(cfg: Config, videoId: string, filename: string, res1: int, res2: int)
    requires res1 != res2
    ensures MakeDescriptor(cfg, videoId, filename, res1).src != MakeDescriptor(cfg, videoId, filename, res2).src
    ensures MakeDescriptor(cfg, videoId, filename, res1).labelText != MakeDescriptor(cfg, videoId, filename, res2).labelText
  {
    var n1 := GetInputOutputLocation(cfg, videoId, filename, res1).outputName;
    var n2 := GetInputOutputLocation(cfg, videoId, filename, res2).outputName;
    OutputFilesDistinctPerResolution(cfg, videoId, filename, res1, res2);
    assert n1 != n2;
    var pre := cfg.baseVideoUrl + "/hls/" + videoId + "/";
    MiddleCancel(pre, n1, n2, UrlSetSuffix);
    if IntToString(res1) == IntToString(res2) {
      IntToStringInjective(res1, res2);
    }
  }

  /** `update_video_resolution_in_db`: pushes the job's descriptor onto the
      `source` list of the video's record. */
  method UpdateVideoResolutionInDb(collection: VideoCollection, cfg: Config,
                                   videoId: string, filename: string, resolution: int)
    modifies collection
    ensures collection.sources
            == Pushed(old(collection.sources), videoId, MakeDescriptor(cfg, videoId, filename, resolution))
  {
    var dbResolution := MakeDescriptor(cfg, videoId, filename, resolution);
    collection.FindOneAndPush(videoId, dbResolution);
  }

  /** `run_convert_task`: converts, then records only on success. A failed
      conversion leaves the store exactly as it was; a successful one leaves
      it as one push of the job's descriptor makes it. */
  method RunConvertTask(collection: VideoCollection, cfg: Config, job: Job,
                        transcoder: seq<string> -> int)
    requires job.resolution in Resolutions
    modifies collection
    ensures transcoder(ConvertCommand(cfg, job.videoId, job.filename, job.resolution)) != 0 ==>
              collection.sources == old(collection.sources)
    ensures transcoder(ConvertCommand(cfg, job.videoId, job.filename, job.resolution)) == 0 ==>
              collection.sources
              == Pushed(old(collection.sources), job.videoId,
                        MakeDescriptor(cfg, job.videoId, job.filename, job.resolution))
  {
    var convertSuccess := ConvertVideoResolution(cfg, job.videoId, job.filename, job.resolution, transcoder);
    if convertSuccess {
      UpdateVideoResolutionInDb(collection, cfg, job.videoId, job.filename, job.resolution);
    }
  }

  /** A job delivered again after it succeeded converts again and pushes a
      second, identical descriptor: the record ends with two copies. */
  method RedeliverAfterSuccess(collection: VideoCollection, cfg: Config, job: Job,
                               transcoder: seq<string> -> int)
    requires job.resolution in Resolutions && job.videoId in collection.sources
    requires transcoder(ConvertCommand(cfg, job.videoId, job.filename, job.resolution)) == 0
    modifies collection
    ensures collection.sources
            == Pushed(Pushed(old(collection.sources), job.videoId,
                             MakeDescriptor(cfg, job.videoId, job.filename, job.resolution)),
                      job.videoId, MakeDescriptor(cfg, job.videoId, job.filename, job.resolution))
    ensures forall id :: id in old(collection.sources) && id != job.videoId ==>
              collection.sources[id] == old(collection.sources)[id]
    ensures collection.sources.Keys == old(collection.sources).Keys
    ensures collection.sources[job.videoId]
            == old(collection.sources)[job.videoId]
               + [MakeDescriptor(cfg, job.videoId, job.filename, job.resolution),
                  MakeDescriptor(cfg, job.videoId, job.filename, job.resolution)]
  {
    RunConvertTask(collection, cfg, job, transcoder);
    RunConvertTask(collection, cfg, job, transcoder);
    PushTwiceKeepsBoth(old(collection.sources), job.videoId,
                       MakeDescriptor(cfg, job.videoId, job.filename, job.resolution));
  }

  /** The worked example: video "v1", file "a.mov", resolution 360, with the
      default base URL. */
  lemma ExampleDescriptor()
    ensures MakeDescriptor(DefaultConfig, "v1", "a.mov", 360)
            == Descriptor("http://localhost:4000/hls/v1/a_360.mov,.urlset/master.m3u8",
                          "application/x-mpegURL", "360", 360)
  {
    ClipSource();
    ClipUrlText();
    DecimalOf360();
  }

  lemma ClipUrlText()
    ensures "http://localhost:4000" + "/hls/" + "v1" + "/" + "a_360.mov" + UrlSetSuffix
            == "http://localhost:4000/hls/v1/a_360.mov,.urlset/master.m3u8"
  {
  }

  lemma ClipSource()
    ensures MakeDescriptor(DefaultConfig, "v1", "a.mov", 360).src
            == "http://localhost:4000" + "/hls/" + "v1" + "/" + "a_360.mov" + UrlSetSuffix
  {
    ClipOutputName();
  }

  lemma ClipOutputName()
    ensures GetInputOutputLocation(DefaultConfig, "v1", "a.mov", 360).outputName == "a_360.mov"
  {
    SplitClip();
    DecimalOf360();
    OutputNameFrom(DefaultConfig, "v1", "a.mov", 360, "a", ".mov", "360");
    assert "a" + ("_" + "360") + ".mov" == "a_360.mov";
  }

  lemma SplitClip()
    ensures SplitExt("a.mov") == ("a", ".mov")
  {
    var p := "a.mov";
    SplitExtNonEmptyIff(p);
    assert p[0] != '.' && p[1] == '.' && InBaseName(p, 0);
    ExtensionSuffixUnique(SplitExt(p).0, SplitExt(p).1, "a", ".mov");
  }

  lemma DecimalOf360()
    ensures IntToString(360) == "360"
  {
    assert NatToString(3) == "3" && NatToString(36) == "36";
  }
}
