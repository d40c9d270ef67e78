/** The name a download is saved under (index.js:130, index.js:135, index.js:145):
    the title with path-illegal characters replaced, padded to the display
    width, then the container extension chosen by the filter. */
module FileNames {
  import opened Text


  /** Titles shorter than this are padded with spaces up to it. */
  const TitleWidth: nat := 35

  /** A character of the class `[\\/:*?"<>|]`, each illegal in a file path. */
  predicate IsIllegal(c: char) {
    c == '\\' || c == '/' || c == ':' || c == '*' || c == '?' || c == '"' || c == '<' || c == '>' || c == '|'
  }

  /** Every character of the class above replaced by an underscore (index.js:130). */
  function Sanitize(title: string): (r: string)
    ensures |r| == |title|
    ensures forall i :: 0 <= i < |r| ==> !IsIllegal(r[i])
    ensures forall i :: 0 <= i < |r| ==> (IsIllegal(title[i]) ==> r[i] == '_')
    ensures forall i :: 0 <= i < |r| ==> (!IsIllegal(title[i]) ==> r[i] == title[i])
  {
    if title == [] then []
    else [if IsIllegal(title[0]) then '_' else title[0]] + Sanitize(title[1..])
  }

  /** Replacing twice is replacing once. */
  lemma {:induction false} SanitizeIdempotent(title: string)
    ensures Sanitize(Sanitize(title)) == Sanitize(title)
  {
    var s := Sanitize(title);
    assert forall i :: 0 <= i < |s| ==> Sanitize(s)[i] == s[i];
  }

  /** Replacement works character by character, so it distributes over concatenation. */
  lemma {:induction false} SanitizeAppend(a: string, b: string)
    ensures Sanitize(a + b) == Sanitize(a) + Sanitize(b)
  {
    if a == [] {
      assert a + b == b;
    } else {
      assert (a + b)[1..] == a[1..] + b;
      SanitizeAppend(a[1..], b);
    }
  }

  /** Text without illegal characters is left as it is. */
  lemma SanitizeKeeps(s: string)
    requires forall i :: 0 <= i < |s| ==> !IsIllegal(s[i])
    ensures Sanitize(s) == s
  {
  }

  /** An example title: each illegal character becomes '_'. */
  lemma SanitizeExample(t: string)
    requires t == "Song: Part 1/2?"
    ensures Sanitize(t) == "Song_ Part 1_2_"
  {
    var u := "Song_ Part 1_2_";
    var r := Sanitize(t);
    assert |r| == |u|;
    forall i | 0 <= i < |u| ensures r[i] == u[i] {
    }
  }

  /** A title shorter than 35 characters gets spaces appended up to 35; a longer
      one is kept whole (index.js:135). */
  function Pad(title: string): (r: string)
    ensures |r| == Max(|title|, TitleWidth)
    ensures title <= r
    ensures forall i :: |title| <= i < |r| ==> r[i] == ' '
  {
    if |title| < TitleWidth then title + Repeat(' ', TitleWidth - |title|) else title
  }

  /** The title part of the file name, as it stands after index.js:135. */
  function FileTitle(title: string): (r: string)
    ensures |r| == Max(|title|, TitleWidth)
    ensures Sanitize(title) <= r
    ensures forall i :: 0 <= i < |r| ==> !IsIllegal(r[i])
  {
    Pad(Sanitize(title))
  }

  /** The extension chosen from the filter (index.js:145): "mp4" when it contains
      "video", else "mp3". */
  function Extension(filter: string): (ext: string)
    ensures ext == "mp4" <==> Includes(filter, "video")
    ensures ext == "mp3" <==> !Includes(filter, "video")
  {
    if Includes(filter, "video") then "mp4" else "mp3"
  }

  /** `${fullPath}/${title}.${extension}`: the directory, a slash, the file title,
      a dot and the extension; nothing in the file title is illegal in a path. */
  function FileName(dir: string, title: string, filter: string): (name: string)
    ensures |name| == |dir| + 1 + Max(|title|, TitleWidth) + 4
    ensures name[..|dir| + 1] == dir + "/"
    ensures name[|dir| + 1..|name| - 4] == FileTitle(title)
    ensures name[|name| - 4..] == (if Includes(filter, "video") then ".mp4" else ".mp3")
  {
    var base := FileTitle(title);
    var ext := Extension(filter);
    var name := dir + "/" + base + "." + ext;
    assert name == (dir + "/") + (base + ("." + ext));
    name
  }
}
