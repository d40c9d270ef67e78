/** The command line (index.js:20, index.js:38, index.js:59-63, index.js:69):
    the help test, the flag lookups with their defaults, and the URL check that
    decides whether a download starts. */
module Arguments {
  import opened Wrappers
  import opened Text
  import PlaylistUrl

  /** The settings the downloader reads. A flag given as the last argument has no
      value after it: JavaScript reads `undefined` there, modelled as None. The
      output directory is always present once a download starts, since an
      `undefined` one stops the program before (see `Parse`). */
  datatype Config = Config(
    url: string,
    threads: Option<string>,
    filter: Option<string>,
    quality: Option<string>,
    output: string)

  /** What the program does with its arguments before any directory check. */
  datatype Command =
    | ShowHelp                // usage printed, exit status 1
    | OutputUndefined         // `path.resolve` throws a TypeError on `undefined`
    | UnknownUrl(url: string) // "Unknown URL format", exit status 1
    | Run(config: Config)     // go on to the directory check and the downloads

  /** The help test of index.js:38: an empty argument list, or a first
      occurrence of "-h" or "--help" at a position above 0. Help is therefore
      shown exactly when there are no arguments, or a help flag occurs and the
      first argument is not that flag. */
  predicate HelpRequested(args: seq<string>): (b: bool)
    ensures b <==>
      || |args| == 0
      || ("-h" in args && args[0] != "-h")
      || ("--help" in args && args[0] != "--help")
  {
    |args| < 1 || IndexOf(args, "-h") > 0 || IndexOf(args, "--help") > 0
  }

  /** A flag's value (index.js:60-63): when the flag's first position is above 0,
      the argument after it, else the default. */
  function FlagValue(args: seq<string>, flag: string, default: string): (r: Option<string>)
    // the first occurrence is past the URL and has an argument after it
    ensures forall i :: 0 < i < |args| - 1 && args[i] == flag && flag !in args[..i] ==>
      r == Some(args[i + 1])
    // the first occurrence is the last argument: nothing to read
    ensures r.None? <==> (|args| > 1 && args[|args| - 1] == flag && flag !in args[..|args| - 1])
    // no occurrence, or the first one is the URL position: the default
    ensures (flag !in args || args[0] == flag) ==> r == Some(default)
  {
    var i := IndexOf(args, flag);
    if i > 0 then
      if i + 1 < |args| then Some(args[i + 1]) else None
    else
      Some(default)
  }

  /** The whole of index.js:38-72 as one decision over the argument list. The
      output directory is resolved (index.js:64) before the URL is checked
      (index.js:69), so a trailing "-o" ends the program with an uncaught
      TypeError whatever the URL. */
  function Parse(args: seq<string>): (c: Command)
    ensures c.ShowHelp? <==> HelpRequested(args)
    ensures c.OutputUndefined? <==> !HelpRequested(args) && FlagValue(args, "-o", "./downloads/").None?
    ensures c.UnknownUrl? <==>
      !HelpRequested(args) && FlagValue(args, "-o", "./downloads/").Some? && !PlaylistUrl.Accepts(args[0])
    ensures c.UnknownUrl? ==> c.url == args[0]
    ensures c.Run? ==> PlaylistUrl.Accepts(c.config.url)
    ensures c.Run? ==> c.config == Config(
      args[0],
      FlagValue(args, "-t", "5"),
      FlagValue(args, "-f", "audioandvideo"),
      FlagValue(args, "-q", "highestaudio"),
      FlagValue(args, "-o", "./downloads/").value)
  {
    if HelpRequested(args) then
      ShowHelp
    else
      var url := args[0];
      match FlagValue(args, "-o", "./downloads/")
      case None => OutputUndefined
      case Some(output) =>
        if !PlaylistUrl.Accepts(url) then
          UnknownUrl(url)
        else
          Run(Config(
            url,
            FlagValue(args, "-t", "5"),
            FlagValue(args, "-f", "audioandvideo"),
            FlagValue(args, "-q", "highestaudio"),
            output))
  }

  /** A bare accepted URL runs with every default. */
  lemma DefaultsWhenNoFlags(url: string)
    requires PlaylistUrl.Accepts(url)
    ensures Parse([url]) == Run(Config(url, Some("5"), Some("audioandvideo"), Some("highestaudio"), "./downloads/"))
  {
  }
}
