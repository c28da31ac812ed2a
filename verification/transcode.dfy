/** The conversion step: the fixed resolution table, the command line given
    to the external conversion script, and how its exit status is read. */
module Transcode {
  import opened PyText
  import opened Paths

  /** The external script the worker runs. */
  const ConvertScript := "./convert.sh"

  /** `RESOLUTIONS`: target height to the "width:height" scale argument. */
  const Resolutions: map<int, string> := map[360 := "640:360", 720 := "1280:720", 1080 := "1920:1080"]

  /** Every entry of the table scales to a 16:9 frame whose height is the
      resolution it is filed under: the entry reads "<width>:<resolution>"
      with width * 9 == resolution * 16. */
  lemma ResolutionTableIsSixteenByNine(resolution: int)
    requires resolution in Resolutions
    ensures resolution > 0 && (resolution * 16) % 9 == 0
    ensures Resolutions[resolution]
            == IntToString(resolution * 16 / 9) + ":" + IntToString(resolution)
  {
    if resolution == 360 {
      ScaleEntry(360, 640, "640", "360");
    } else if resolution == 720 {
      ScaleEntry(720, 1280, "1280", "720");
    } else {
      ScaleEntry(1080, 1920, "1920", "1080");
    }
  }

  /** One table entry, given the decimal renderings of its two numbers. */
  lemma ScaleEntry(resolution: int, width: nat, w: string, h: string)
    requires resolution in Resolutions && Resolutions[resolution] == w + ":" + h
    requires width * 9 == resolution * 16
    requires NatToString(width) == w && NatToString(resolution) == h
    ensures resolution > 0 && (resolution * 16) % 9 == 0
    ensures Resolutions[resolution]
            == IntToString(resolution * 16 / 9) + ":" + IntToString(resolution)
  {
    assert resolution * 16 / 9 == width;
  }

  /** The argument list given to `subprocess.call`: the script, the input
      file, the scale argument for the resolution, the output file. */
  function ConvertCommand(cfg: Config, videoId: string, filename: string, resolution: int): (argv: seq<string>)
    requires resolution in Resolutions
    ensures |argv| == 4 && argv[0] == ConvertScript && argv[2] == Resolutions[resolution]
    ensures argv[1] == GetInputOutputLocation(cfg, videoId, filename, resolution).inputFile
    ensures argv[3] == GetInputOutputLocation(cfg, videoId, filename, resolution).outputFile
    ensures argv[1] != argv[3]
  {
    var paths := GetInputOutputLocation(cfg, videoId, filename, resolution);
    [ConvertScript, paths.inputFile, Resolutions[resolution], paths.outputFile]
  }

  /** `convert_video_resolution`: runs the script (here `transcoder`, which
      maps an argument list to the exit status of that process) and reports
      success exactly when the script exits with status 0. */
  function ConvertVideoResolution(cfg: Config, videoId: string, filename: string, resolution: int,
                                  transcoder: seq<string> -> int): (success: bool)
    requires resolution in Resolutions
    ensures success <==> transcoder(ConvertCommand(cfg, videoId, filename, resolution)) == 0
  {
    var status := transcoder(ConvertCommand(cfg, videoId, filename, resolution));
    status == 0
  }
}
