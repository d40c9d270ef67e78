/** The state of one call of `downloader` (index.js:120-184): the file title,
    the byte counter that the "response" and "data" handlers update, and the
    values last handed to the item's progress bar. The event wiring itself
    (ytdl, the response stream, the file stream) is not modelled; each handler
    is a method, called in the order the events arrive. */
module Download {
  import opened Wrappers
  import opened Text
  import opened FileNames
  import opened Sizes
  import opened BarLabels

  /** The percentage of index.js:167, the ceiling of a hundred times the share
      of bytes read, computed exactly: the least integer percentage that is not
      below that share. */
  function Percent(read: nat, total: nat): (p: nat)
    requires total > 0
    ensures total * (p - 1) < 100 * read <= total * p
  {
    (100 * read + total - 1) / total
  }

  /** While no more than the declared total has arrived, the percentage stays in [0, 100]. */
  lemma PercentInRange(read: nat, total: nat)
    requires 0 < total && read <= total
    ensures Percent(read, total) <= 100
  {
    var p := Percent(read, total);
    if p > 100 {
      MulLeft(total, 100, p - 1);
      assert false;
    }
  }

  /** The percentage is not clamped: more bytes than declared show more than 100. */
  lemma PercentUnclamped(read: nat, total: nat)
    requires 0 < total < read
    ensures Percent(read, total) > 100
  {
    var p := Percent(read, total);
    if p <= 100 {
      MulLeft(total, p, 100);
      assert false;
    }
  }

  /** More bytes read never show a smaller percentage. */
  lemma PercentMonotone(r1: nat, r2: nat, total: nat)
    requires 0 < total && r1 <= r2
    ensures Percent(r1, total) <= Percent(r2, total)
  {
    DivMonotone(100 * r1 + total - 1, 100 * r2 + total - 1, total);
  }

  /** The bytes of the chunks seen so far. */
  function Sum(chunks: seq<nat>): nat {
    if chunks == [] then 0 else Sum(chunks[..|chunks| - 1]) + chunks[|chunks| - 1]
  }

  /** The counter after fewer chunks is never above the counter after more. */
  lemma {:induction false} SumPrefixMonotone(chunks: seq<nat>, i: nat, j: nat)
    requires i <= j <= |chunks|
    ensures Sum(chunks[..i]) <= Sum(chunks[..j])
    decreases j - i
  {
    if i < j {
      SumPrefixMonotone(chunks, i, j - 1);
      assert chunks[..j][..j - 1] == chunks[..j - 1];
    }
  }

  /** Along any stream of chunks the displayed percentage never goes down. */
  lemma PercentAlongStream(chunks: seq<nat>, total: nat, i: nat, j: nat)
    requires 0 < total && i <= j <= |chunks|
    ensures Percent(Sum(chunks[..i]), total) <= Percent(Sum(chunks[..j]), total)
  {
    SumPrefixMonotone(chunks, i, j);
    PercentMonotone(Sum(chunks[..i]), Sum(chunks[..j]), total);
  }

  /** How the download ended, as reported through `callback`. */
  datatype Outcome = Running | Finished | Failed

  class Tracker {
    /** The item's title as the playlist gave it. */
    ghost const sourceTitle: string
    /** `title` after index.js:135: sanitised and padded; also the file's base name. */
    const fileTitle: string

    /** Set once the "response" event has arrived. */
    var responded: bool
    /** `totalSize`: the declared content length. */
    var totalSize: nat
    /** `dataRead`: the bytes received since the response. */
    var dataRead: nat
    /** `dividerUnit`: the divider of the unit chosen for `totalSize`. */
    var divider: nat
    /** `size`: the size label, `undefined` (None) before the response. */
    var size: Option<string>
    /** The chunk lengths received since the response. */
    ghost var chunks: seq<nat>

    /** The value and payload fields last passed to `bar.update`. */
    var barValue: nat
    var barTitle: string
    var barSize: Option<string>
    var barRead: nat

    var outcome: Outcome

    ghost predicate Valid()
      reads this
    {
      && fileTitle == FileTitle(sourceTitle)
      && dataRead == Sum(chunks)
      && (responded ==> divider == Divider(UnitFor(totalSize)) && size == Some(SizeLabel(totalSize)))
      && (!responded ==> chunks == [] && size == None)
    }

    /** index.js:121-141: the bar is created with the raw title cut to 35
        characters, the title is sanitised and padded, and the bar is then
        retitled "Starting ...". */
    constructor (title: string)
      ensures Valid()
      ensures sourceTitle == title && fileTitle == FileTitle(title)
      ensures !responded && dataRead == 0 && chunks == [] && size == None
      ensures barValue == 0 && barTitle == StartingLabel(fileTitle)
      ensures barSize == Some("0MB") && barRead == 0
      ensures outcome == Running
    {
      sourceTitle := title;
      barValue, barTitle, barSize, barRead := 0, InitialTitle(title), Some("0MB"), 0;
      var t := Sanitize(title);
      t := Pad(t);
      fileTitle := t;
      barValue, barTitle, barSize := 0, StartingLabel(t), Some("0MB");
      responded, totalSize, dataRead, divider, size := false, 0, 0, 0, None;
      chunks := [];
      outcome := Running;
    }

    /** The "response" handler (index.js:147-163): records the declared size,
        starts the counter at 0 and chooses the unit. The bar is not touched. */
    method OnResponse(contentLength: nat)
      requires Valid()
      modifies this
      ensures Valid()
      ensures responded && totalSize == contentLength
      ensures dataRead == 0 && chunks == []
      ensures divider == Divider(UnitFor(contentLength))
      ensures size == Some(SizeLabel(contentLength))
      ensures barValue == old(barValue) && barTitle == old(barTitle)
      ensures barSize == old(barSize) && barRead == old(barRead)
      ensures outcome == old(outcome)
    {
      responded := true;
      totalSize := contentLength;
      dataRead := 0;
      chunks := [];
      var u := UnitFor(totalSize);
      size := Some(SizeLabel(totalSize));
      divider := Divider(u);
    }

    /** The "data" handler (index.js:165-169), registered inside the response
        handler: the counter grows by the chunk's length and the bar shows the
        percentage, the progress title, the size and the rounded amount read. */
    method OnData(length: nat)
      requires Valid() && responded && totalSize > 0
      modifies this
      ensures Valid() && responded
      ensures dataRead == old(dataRead) + length && dataRead >= old(dataRead)
      ensures chunks == old(chunks) + [length]
      ensures totalSize == old(totalSize) && divider == old(divider) && size == old(size)
      ensures barValue == Percent(dataRead, totalSize)
      ensures dataRead <= totalSize ==> barValue <= 100
      ensures barTitle == ProgressTitle(fileTitle)
      ensures barSize == size
      ensures barRead == RoundDiv(dataRead, divider)
      ensures outcome == old(outcome)
    {
      var read := dataRead + length;
      ghost var seen := chunks + [length];
      assert seen[..|seen| - 1] == chunks;
      assert Sum(seen) == read;
      var shown := Percent(read, totalSize);
      if read <= totalSize {
        PercentInRange(read, totalSize);
      }
      var amount := RoundDiv(read, divider);
      dataRead, chunks := read, seen;
      barValue, barTitle, barSize, barRead := shown, ProgressTitle(fileTitle), size, amount;
    }

    /** The "end" handler (index.js:172-176): the bar shows 100 and the
        progress title, and the item is reported as done. */
    method OnEnd()
      requires Valid()
      modifies this`barValue, this`barTitle, this`barSize, this`outcome
      ensures Valid()
      ensures barValue == 100 && barTitle == ProgressTitle(fileTitle) && barSize == size
      ensures barRead == old(barRead)
      ensures outcome == Finished
    {
      var shown := ProgressTitle(fileTitle);
      barValue, barTitle, barSize, outcome := 100, shown, size, Finished;
    }

    /** The "error" handler (index.js:178-182): the bar shows 0 and the error
        label, and the item is reported as failed. */
    method OnError()
      requires Valid()
      modifies this`barValue, this`barTitle, this`barSize, this`outcome
      ensures Valid()
      ensures barValue == 0 && barTitle == ErrorLabel(fileTitle) && barSize == size
      ensures barRead == old(barRead)
      ensures outcome == Failed
    {
      var shown := ErrorLabel(fileTitle);
      barValue, barTitle, barSize, outcome := 0, shown, size, Failed;
    }
  }
}
