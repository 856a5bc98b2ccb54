/**
 * The appliance's answer downloader (AnswerDownloader): the periodic list of
 * answered questions the server sends, the check of the home directory for
 * answers already downloaded and questions asked here, and the download of
 * one answer into a numbered answer file.
 *
 * The network and the file system are inputs: the listing of the home
 * directory, the parsed list of answered questions, and how one download's
 * request and transfer went. Downloads are started and not awaited.
 */
module Downloader {
  import opened Common
  import opened Appliance

  // ---------------------------------------------------------------------
  // The extension of a download
  // ---------------------------------------------------------------------

  /** String.trim removes every character up to and including the space. */
  predicate IsJavaSpace(c: char)
  {
    c <= ' '
  }

  function TrimStart(s: string): (t: string)
    ensures |t| <= |s| && t == s[|s| - |t|..]
    ensures t != [] ==> !IsJavaSpace(t[0])
    ensures forall i :: 0 <= i < |s| - |t| ==> IsJavaSpace(s[i])
  {
    if s != [] && IsJavaSpace(s[0]) then TrimStart(s[1..]) else s
  }

  function TrimEnd(s: string): (t: string)
    ensures |t| <= |s| && t == s[..|t|]
    ensures t != [] ==> !IsJavaSpace(t[|t| - 1])
    ensures forall i :: |t| <= i < |s| ==> IsJavaSpace(s[i])
  {
    if s != [] && IsJavaSpace(s[|s| - 1]) then TrimEnd(s[..|s| - 1]) else s
  }

  /** String.trim */
  function Trim(s: string): string
  {
    TrimEnd(TrimStart(s))
  }

  /** String.lastIndexOf for one character: -1 when it does not occur. */
  function LastIndexOf(s: string, c: char): (i: int)
    ensures -1 <= i < |s|
    ensures i >= 0 ==> s[i] == c && forall k :: i < k < |s| ==> s[k] != c
    ensures i == -1 ==> forall k :: 0 <= k < |s| ==> s[k] != c
  {
    if s == [] then -1
    else if s[|s| - 1] == c then |s| - 1
    else LastIndexOf(s[..|s| - 1], c)
  }

  /**
   * downloadAnswer's extension: the trimmed address from the index of the
   * last '.' in the untrimmed address. None is the exception substring
   * throws, when there is no '.' or the index lies beyond the trimmed text.
   */
  function FileExtension(url: string): Option<string>
  {
    var t := Trim(url);
    var i := LastIndexOf(url, '.');
    if 0 <= i <= |t| then Some(t[i..]) else None
  }

  /**
   * Whatever the blanks, an extension is a tail of the trimmed address, and
   * an address without a '.' has none.
   */
  lemma FileExtensionSuffix(url: string)
    ensures FileExtension(url).Some? ==>
              var e := FileExtension(url).value;
              |e| <= |Trim(url)| && Trim(url)[|Trim(url)| - |e|..] == e
    ensures (forall k :: 0 <= k < |url| ==> url[k] != '.') ==> FileExtension(url).None?
  {
    var t := Trim(url);
    var i := LastIndexOf(url, '.');
    if 0 <= i <= |t| {
      assert t[|t| - |t[i..]|..] == t[i..];
    }
  }

  /**
   * For an address without surrounding blanks the extension is its last '.'
   * and what follows it, and there is none (the exception) without a '.'.
   */
  lemma FileExtensionOfCleanUrl(url: string)
    requires Trim(url) == url
    ensures FileExtension(url).None? <==> forall k :: 0 <= k < |url| ==> url[k] != '.'
    ensures FileExtension(url).Some? ==>
              var e := FileExtension(url).value;
              && 1 <= |e| <= |url| && e[0] == '.' && url[|url| - |e|..] == e
              && forall k :: 1 <= k < |e| ==> e[k] != '.'
  {
    var i := LastIndexOf(url, '.');
    if i >= 0 {
      var e := url[i..];
      assert FileExtension(url) == Some(e);
      assert url[|url| - |e|..] == e;
    } else {
      assert FileExtension(url) == None;
    }
  }

  /** With a blank in front, the index is off by one and the dot is lost. */
  lemma FileExtensionOfPaddedUrl()
    ensures FileExtension(" a.m4a") == Some("m4a")
  {
    var url := " a.m4a";
    assert url[2] == '.' && url[3] != '.' && url[4] != '.' && url[5] != '.';
    assert LastIndexOf(url, '.') == 2;
    assert url[1..] == "a.m4a";
    assert Trim(url) == "a.m4a";
    assert "a.m4a"[2..] == "m4a";
  }

  /** An extension the answer pattern accepts: ".mp3", ".m4a" or ".wav". */
  predicate AnswerExtension(ext: string)
  {
    |ext| == 4 && ext[0] == '.' && ext[1..] in Extensions(AnswerPattern)
  }

  /** The numbered answer file a download goes to: ANSWER_FILE_FORMAT of the temporary name. */
  function OutputName(localId: int, c: Clock, ext: string): string
    requires ValidDateTime(c.date)
  {
    NumberedFileName(localId, AnswerPattern, TimestampName(c, ext))
  }

  /** The number a listed file carries under a pattern: a full match whose group 1 parses. */
  function IdOf(f: LocalFile, p: FilePattern): Option<int>
  {
    if f.isFile && MatchId(f.name, p).Some? then JavaParseInt(MatchId(f.name, p).value) else None
  }

  /** A downloaded answer is found again as the answer of the number it was downloaded for. */
  lemma OutputNameFound(localId: int, c: Clock, ext: string)
    requires 0 <= localId <= INT_MAX && ValidDateTime(c.date) && c.date.year < 10000 && AnswerExtension(ext)
    ensures IdOf(LocalFile(OutputName(localId, c, ext), true), AnswerPattern) == Some(localId)
  {
    NumberedNameRoundTrip(localId, AnswerPattern, c, ext);
  }

  // ---------------------------------------------------------------------
  // One download
  // ---------------------------------------------------------------------

  /** How the request for an answer file went. */
  datatype Transfer =
    | InvalidUrl    // building or sending the request threw
    | RequestFailed // onFailure
    | Unsuccessful  // onResponse with an error status or no body
    | Body(contentLength: int, chunks: seq<nat>, written: nat, renamed: bool)
                    // the chunks read before -1, the temporary file's length, renameTo's result
    | ReadFailed(sinkOpened: bool)
                    // onResponse threw an IOException while opening the sink or reading the body:
                    // OkHttp swallows it, no callback runs; the temporary file exists once the sink opened

  /** What the completion callback, when there is one, is told. */
  datatype Notice = NotifiedFailed | NotifiedComplete(path: string)

  /** downloadAnswer throws before doing anything, or returns having told the callback and left files behind. */
  datatype DownloadOutcome =
    | ExtensionThrew
    | Returned(notices: seq<Notice>, left: set<string>)

  /** The bytes read, chunk by chunk. */
  function Sum(chunks: seq<nat>): nat
  {
    if chunks == [] then 0 else Sum(chunks[..|chunks| - 1]) + chunks[|chunks| - 1]
  }

  /** A transfer is accepted when bytes came, as many as announced, reached the file and it was renamed. */
  predicate Succeeds(t: Transfer)
  {
    t.Body? && Sum(t.chunks) > 0 && Sum(t.chunks) == t.contentLength && t.written > 0 && t.renamed
  }

  /**
   * The files one download leaves in the directory, as written: the empty
   * placeholder created for the output name stays after a failed request, an
   * unsuccessful response or an exception inside onResponse, which also
   * leaves the temporary file once its sink was opened; a failed check or an
   * exception while sending deletes both.
   */
  function LeftAsWritten(created: bool, t: Transfer, name: string, temp: string): (left: set<string>)
    ensures left <= {name, temp}
    ensures name in left <==> created && (t.RequestFailed? || t.Unsuccessful? || t.ReadFailed? || Succeeds(t))
    ensures temp != name ==> (temp in left <==> created && t.ReadFailed? && t.sinkOpened)
  {
    if !created then {}
    else if t.ReadFailed? then {name} + (if t.sinkOpened then {temp} else {})
    else if t.RequestFailed? || t.Unsuccessful? || Succeeds(t) then {name}
    else {}
  }

  /** The files one download should leave: the answer when it arrived, nothing otherwise. */
  function LeftCorrected(created: bool, t: Transfer, name: string): (left: set<string>)
    ensures name in left <==> created && Succeeds(t)
    ensures left <= {name}
  {
    if created && Succeeds(t) then {name} else {}
  }

  /** The read loop: the total of the chunks until the source reports the end. */
  method ReadAll(chunks: seq<nat>) returns (total: nat)
    ensures total == Sum(chunks)
  {
    total := 0;
    for i := 0 to |chunks|
      invariant total == Sum(chunks[..i])
    {
      assert chunks[..i + 1][..i] == chunks[..i];
      total := total + chunks[i];
    }
    assert chunks[..|chunks|] == chunks;
  }

  /**
   * downloadAnswer(localId, answerFile, outputDirectory, callback): the
   * placeholder of the numbered answer file is created, the file is fetched
   * into a temporary file and renamed onto the placeholder when it checks
   * out. `created` is whether createNewFile succeeded.
   */
  method DownloadAnswer(localId: int, answerFile: string, directory: string, c: Clock, hasCallback: bool,
                        created: bool, transfer: Transfer) returns (outcome: DownloadOutcome)
    requires ValidDateTime(c.date)
    ensures outcome == ExtensionThrew <==> FileExtension(answerFile).None?
    ensures outcome.Returned? ==>
              var temp := TimestampName(c, FileExtension(answerFile).value);
              var name := OutputName(localId, c, FileExtension(answerFile).value);
              var done := created && Succeeds(transfer);
              && outcome.left == LeftAsWritten(created, transfer, name, temp)
              && outcome.notices == (if !hasCallback || (created && transfer.ReadFailed?) then []
                                     else if done then [NotifiedComplete(directory + "/" + name)]
                                     else [NotifiedFailed])
  {
    var ext := FileExtension(answerFile);
    if ext.None? {
      return ExtensionThrew;
    }
    var temp := TimestampName(c, ext.value);
    var name := OutputName(localId, c, ext.value);
    var failed := if hasCallback then [NotifiedFailed] else [];
    if !created {
      return Returned(failed, {});
    }
    match transfer
    case InvalidUrl =>
      // the catch block deletes the temporary file and the placeholder
      return Returned(failed, {});
    case RequestFailed =>
      // only the temporary file is deleted
      return Returned(failed, {name});
    case Unsuccessful =>
      return Returned(failed, {name});
    case ReadFailed(sinkOpened) =>
      // the exception leaves onResponse: nothing is deleted and nobody is told
      return Returned([], if sinkOpened then {name, temp} else {name});
    case Body(contentLength, chunks, written, renamed) =>
      var total := ReadAll(chunks);
      if total > 0 && total == contentLength && written > 0 && renamed {
        var done := if hasCallback then [NotifiedComplete(directory + "/" + name)] else [];
        return Returned(done, {name});
      }
      return Returned(failed, {});
  }

  /**
   * After a failed request, an unsuccessful response or an exception while
   * reading, the empty placeholder stays, and it carries the number's answer
   * name: every later check takes the answer as downloaded.
   */
  lemma PlaceholderSurvivesFailedRequest(localId: int, c: Clock, ext: string, sinkOpened: bool)
    requires 0 <= localId <= INT_MAX && ValidDateTime(c.date) && c.date.year < 10000 && AnswerExtension(ext)
    ensures !Succeeds(RequestFailed) && !Succeeds(Unsuccessful) && !Succeeds(ReadFailed(sinkOpened))
    ensures var name := OutputName(localId, c, ext);
            var temp := TimestampName(c, ext);
            && LeftAsWritten(true, RequestFailed, name, temp) == {name}
            && LeftAsWritten(true, Unsuccessful, name, temp) == {name}
            && name in LeftAsWritten(true, ReadFailed(sinkOpened), name, temp)
            && IdOf(LocalFile(name, true), AnswerPattern) == Some(localId)
  {
    var name := OutputName(localId, c, ext);
    var temp := TimestampName(c, ext);
    assert LeftAsWritten(true, RequestFailed, name, temp) == {name};
    assert LeftAsWritten(true, Unsuccessful, name, temp) == {name};
    OutputNameFound(localId, c, ext);
  }

  /**
   * With the placeholder deleted on every failure, a file of the number's
   * answer name is left exactly when the answer arrived; this differs from
   * the code as written only after a failed request or response.
   */
  lemma LeftCorrectedOnlyOnSuccess(localId: int, c: Clock, ext: string, created: bool, t: Transfer)
    requires 0 <= localId <= INT_MAX && ValidDateTime(c.date) && c.date.year < 10000 && AnswerExtension(ext)
    ensures var name := OutputName(localId, c, ext);
            && (forall f :: f in LeftCorrected(created, t, name) && IdOf(LocalFile(f, true), AnswerPattern) == Some(localId)
                  <==> f == name && created && Succeeds(t))
            && LeftCorrected(created, t, name) <= LeftAsWritten(created, t, name, TimestampName(c, ext))
            && (LeftCorrected(created, t, name) != LeftAsWritten(created, t, name, TimestampName(c, ext)) <==>
                  created && (t.RequestFailed? || t.Unsuccessful? || t.ReadFailed?))
  {
    OutputNameFound(localId, c, ext);
  }

  // ---------------------------------------------------------------------
  // The check of the home directory
  // ---------------------------------------------------------------------

  /** The pattern's reading of every listed file, in listing order. */
  function Classify(files: seq<LocalFile>, p: FilePattern): (ids: seq<Option<int>>)
    ensures |ids| == |files|
    ensures forall k :: 0 <= k < |files| ==> ids[k] == IdOf(files[k], p)
  {
    seq(|files|, k requires 0 <= k < |files| => IdOf(files[k], p))
  }

  /** The numbers among the readings. */
  function IdSet(ids: seq<Option<int>>): set<int>
  {
    if ids == [] then {}
    else IdSet(ids[..|ids| - 1]) + if ids[|ids| - 1].Some? then {ids[|ids| - 1].value} else {}
  }

  /** A number is in the set exactly when some reading is that number. */
  lemma {:induction false} IdSetMeaning(ids: seq<Option<int>>, id: int)
    ensures id in IdSet(ids) <==> exists k :: 0 <= k < |ids| && ids[k] == Some(id)
  {
    if ids != [] {
      var init := ids[..|ids| - 1];
      IdSetMeaning(init, id);
      if id in IdSet(init) {
        var k :| 0 <= k < |init| && init[k] == Some(id);
        assert ids[k] == init[k];
      }
      if exists k :: 0 <= k < |ids| && ids[k] == Some(id) {
        var k :| 0 <= k < |ids| && ids[k] == Some(id);
        if k < |init| {
          assert init[k] == ids[k];
        }
      }
    }
  }

  /** One more reading adds its number, if it has one. */
  lemma IdSetStep(ids: seq<Option<int>>, j: nat)
    requires j < |ids|
    ensures IdSet(ids[..j + 1]) == IdSet(ids[..j]) + if ids[j].Some? then {ids[j].value} else {}
  {
    assert ids[..j + 1][..j] == ids[..j];
  }

  /** The numbers of a prefix of the readings are numbers of them all. */
  lemma {:induction false} IdSetPrefix(ids: seq<Option<int>>, i: nat)
    requires i <= |ids|
    ensures IdSet(ids[..i]) <= IdSet(ids)
  {
    if i < |ids| {
      var init := ids[..|ids| - 1];
      assert init[..i] == ids[..i];
      IdSetPrefix(init, i);
    } else {
      assert ids[..i] == ids;
    }
  }

  /** The numbers the listed files carry under a pattern. */
  function Ids(files: seq<LocalFile>, p: FilePattern): set<int>
  {
    IdSet(Classify(files, p))
  }

  /** A number is among the ids exactly when some listed file is a hit for it. */
  lemma IdsMeaning(files: seq<LocalFile>, p: FilePattern, id: int)
    ensures id in Ids(files, p) <==> exists k :: 0 <= k < |files| && Hit(files[k], p, id)
  {
    var ids := Classify(files, p);
    IdSetMeaning(ids, id);
    if id in Ids(files, p) {
      var k :| 0 <= k < |ids| && ids[k] == Some(id);
      assert Hit(files[k], p, id);
    }
    if exists k :: 0 <= k < |files| && Hit(files[k], p, id) {
      var k :| 0 <= k < |files| && Hit(files[k], p, id);
      assert ids[k] == Some(id);
    }
  }

  function Without(m: map<int, string>, s: set<int>): (r: map<int, string>)
    ensures forall k :: k in r <==> k in m && k !in s
    ensures forall k :: k in r ==> r[k] == m[k]
  {
    map k | k in m && k !in s :: m[k]
  }

  /** A download started by the check: the number and the address it is fetched from. */
  datatype Fetch = Fetch(id: int, url: string)

  function DownloadIds(downloads: seq<Fetch>): set<int>
  {
    set d | d in downloads :: d.id
  }

  /** One more download adds its number. */
  lemma DownloadIdsAppend(downloads: seq<Fetch>, f: Fetch)
    ensures DownloadIds(downloads + [f]) == DownloadIds(downloads) + {f.id}
  {
    assert f in downloads + [f];
    forall d | d in downloads + [f] ensures d == f || d in downloads {
    }
  }

  predicate DistinctIds(downloads: seq<Fetch>)
  {
    forall i, j :: 0 <= i < j < |downloads| ==> downloads[i].id != downloads[j].id
  }

  /**
   * An answer is fetched when the server has it, no answer file of its number
   * is listed, a question file of its number is, and its address has an
   * extension (otherwise downloadAnswer throws and the exception is ignored).
   */
  predicate Due(answerMap: map<int, string>, files: seq<LocalFile>, id: int)
  {
    && id in answerMap && id !in Ids(files, AnswerPattern) && id in Ids(files, QuestionPattern)
    && FileExtension(answerMap[id]).Some?
  }

  /**
   * A listed file with a number's answer name keeps that number from being
   * fetched again: so does a completed download, and so does the
   * placeholder a failed request leaves behind.
   */
  lemma ListedAnswerNotFetched(files: seq<LocalFile>, k: nat, answerMap: map<int, string>, localId: int, c: Clock, ext: string)
    requires 0 <= localId <= INT_MAX && ValidDateTime(c.date) && c.date.year < 10000 && AnswerExtension(ext)
    requires k < |files| && files[k] == LocalFile(OutputName(localId, c, ext), true)
    ensures !Due(answerMap, files, localId)
  {
    OutputNameFound(localId, c, ext);
    var ids := Classify(files, AnswerPattern);
    assert ids[k] == Some(localId);
    IdSetMeaning(ids, localId);
  }

  /**
   * checkAndDownloadAnswers, first loop, over the answer pattern's readings
   * of the listing: the numbers whose answer is listed are dropped; the loop
   * stops as soon as none is left.
   */
  method DropDownloaded(answerIds: seq<Option<int>>, answerMap: map<int, string>) returns (m: map<int, string>)
    ensures forall id :: id in m <==> id in answerMap && id !in IdSet(answerIds)
    ensures forall id :: id in m ==> m[id] == answerMap[id]
  {
    m := answerMap;
    var i := 0;
    while i < |answerIds|
      invariant 0 <= i <= |answerIds|
      invariant forall id :: id in m <==> id in answerMap && id !in IdSet(answerIds[..i])
      invariant forall id :: id in m ==> m[id] == answerMap[id]
    {
      var id := answerIds[i];
      if id.Some? && id.value in m {
        m := m - {id.value};
      }
      IdSetStep(answerIds, i);
      i := i + 1;
      if |m| <= 0 {
        break;
      }
    }
    IdSetPrefix(answerIds, i);
    assert i == |answerIds| ==> answerIds[..i] == answerIds;
  }

  /**
   * checkAndDownloadAnswers, second loop, over the question pattern's
   * readings of the listing: each question of a number still in the map
   * starts that number's download, which takes the number out of the map.
   */
  method StartDownloads(questionIds: seq<Option<int>>, remaining: map<int, string>) returns (downloads: seq<Fetch>)
    ensures forall id :: id in DownloadIds(downloads) <==>
              id in remaining && id in IdSet(questionIds) && FileExtension(remaining[id]).Some?
    ensures forall j :: 0 <= j < |downloads| ==> downloads[j].id in remaining && downloads[j].url == remaining[downloads[j].id]
    ensures DistinctIds(downloads)
  {
    downloads := [];
    var m := remaining;
    for j := 0 to |questionIds|
      invariant forall id :: id in m <==> id in remaining && id !in DownloadIds(downloads)
      invariant forall id :: id in m ==> m[id] == remaining[id]
      invariant DistinctIds(downloads)
      invariant forall k :: 0 <= k < |downloads| ==>
                  && downloads[k].id in remaining && downloads[k].url == remaining[downloads[k].id]
                  && FileExtension(downloads[k].url).Some? && downloads[k].id in IdSet(questionIds[..j])
      invariant forall id :: id in remaining && id in IdSet(questionIds[..j]) && FileExtension(remaining[id]).Some? ==>
                  id in DownloadIds(downloads)
    {
      var id := questionIds[j];
      IdSetStep(questionIds, j);
      if id.Some? && id.value in m {
        var url := m[id.value];
        // downloadAnswer's first line throws when there is no extension, and the number stays
        if FileExtension(url).Some? {
          DownloadIdsAppend(downloads, Fetch(id.value, url));
          downloads := downloads + [Fetch(id.value, url)];
          m := m - {id.value};
        }
      }
    }
    assert questionIds[..|questionIds|] == questionIds;
  }

  /**
   * checkAndDownloadAnswers: the answers already listed are dropped, then
   * each listed question of a remaining number starts that number's
   * download once; nothing happens when the directory cannot be listed.
   */
  method CheckAndDownload(listing: Option<seq<LocalFile>>, answerMap: map<int, string>) returns (downloads: seq<Fetch>)
    ensures listing.None? ==> downloads == []
    ensures listing.Some? ==> forall id :: id in DownloadIds(downloads) <==> Due(answerMap, listing.value, id)
    ensures forall j :: 0 <= j < |downloads| ==> downloads[j].id in answerMap && downloads[j].url == answerMap[downloads[j].id]
    ensures DistinctIds(downloads)
  {
    downloads := [];
    if listing.None? {
      return;
    }
    var remaining := DropDownloaded(Classify(listing.value, AnswerPattern), answerMap);
    if |remaining| > 0 {
      downloads := StartDownloads(Classify(listing.value, QuestionPattern), remaining);
    }
  }

  // ---------------------------------------------------------------------
  // The list of answered questions
  // ---------------------------------------------------------------------

  /** One entry of the server's JSON array. */
  datatype Task = Task(id: int, url: string)

  /** The server's reply; a None task is one whose parsing threw a JSONException. */
  datatype AnswerListResponse =
    | ListRequestFailed
    | ListUnsuccessful
    | ListBody(text: string, tasks: seq<Option<Task>>)

  /** The tasks read before the first one that could not be parsed. */
  function TasksBeforeError(tasks: seq<Option<Task>>): (r: seq<Task>)
    ensures |r| <= |tasks|
    ensures forall j :: 0 <= j < |r| ==> tasks[j] == Some(r[j])
    ensures |r| < |tasks| ==> tasks[|r|].None?
  {
    if tasks == [] || tasks[0].None? then [] else [tasks[0].value] + TasksBeforeError(tasks[1..])
  }

  /** HashMap.put of every task in order. */
  function AnswerMapOf(tasks: seq<Task>): map<int, string>
  {
    if tasks == [] then map[]
    else AnswerMapOf(tasks[..|tasks| - 1])[tasks[|tasks| - 1].id := tasks[|tasks| - 1].url]
  }

  /** Every task's number is in the map, with the address of the last task of that number. */
  lemma {:induction false} AnswerMapOfMeaning(tasks: seq<Task>)
    ensures forall j :: 0 <= j < |tasks| ==> tasks[j].id in AnswerMapOf(tasks)
    ensures forall id :: id in AnswerMapOf(tasks) ==>
              exists j :: 0 <= j < |tasks| && tasks[j].id == id && AnswerMapOf(tasks)[id] == tasks[j].url &&
                          forall k :: j < k < |tasks| ==> tasks[k].id != id
  {
    if tasks != [] {
      var init := tasks[..|tasks| - 1];
      var last := tasks[|tasks| - 1];
      AnswerMapOfMeaning(init);
      forall j | 0 <= j < |tasks|
        ensures tasks[j].id in AnswerMapOf(tasks)
      {
        if j < |init| {
          assert tasks[j] == init[j];
        }
      }
      forall id | id in AnswerMapOf(tasks)
        ensures exists j :: 0 <= j < |tasks| && tasks[j].id == id && AnswerMapOf(tasks)[id] == tasks[j].url &&
                            forall k :: j < k < |tasks| ==> tasks[k].id != id
      {
        if id == last.id {
          assert tasks[|tasks| - 1].id == id;
        } else {
          assert AnswerMapOf(tasks) == AnswerMapOf(init)[last.id := last.url];
          assert id in AnswerMapOf(init) && AnswerMapOf(tasks)[id] == AnswerMapOf(init)[id];
          var j :| 0 <= j < |init| && init[j].id == id && AnswerMapOf(init)[id] == init[j].url &&
                   forall k :: j < k < |init| ==> init[k].id != id;
          assert tasks[j] == init[j];
          assert forall k :: j < k < |tasks| ==> tasks[k].id != id by {
            forall k | j < k < |tasks|
              ensures tasks[k].id != id
            {
              if k < |init| {
                assert tasks[k] == init[k];
              }
            }
          }
        }
      }
    }
  }

  /** Tasks read one by one up to a failure or the end are the tasks before the first error. */
  lemma TasksBeforeErrorIs(tasks: seq<Option<Task>>, parsed: seq<Task>)
    requires |parsed| <= |tasks| && forall j :: 0 <= j < |parsed| ==> tasks[j] == Some(parsed[j])
    requires |parsed| == |tasks| || tasks[|parsed|].None?
    ensures TasksBeforeError(tasks) == parsed
  {
    var r := TasksBeforeError(tasks);
    assert |r| == |parsed|;
  }

  /** The parsing loop: tasks are put into the map until one throws. */
  method BuildAnswerMap(tasks: seq<Option<Task>>) returns (m: map<int, string>)
    ensures m == AnswerMapOf(TasksBeforeError(tasks))
  {
    m := map[];
    ghost var parsed: seq<Task> := [];
    for i := 0 to |tasks|
      invariant |parsed| == i && forall j :: 0 <= j < i ==> tasks[j] == Some(parsed[j])
      invariant m == AnswerMapOf(parsed)
    {
      if tasks[i].None? {
        TasksBeforeErrorIs(tasks, parsed);
        return;
      }
      var t := tasks[i].value;
      m := m[t.id := t.url];
      parsed := parsed + [t];
      assert parsed[..i] == parsed[..|parsed| - 1];
    }
    TasksBeforeErrorIs(tasks, parsed);
  }

  /**
   * onResponse of the answered-questions request: nothing happens unless a
   * body other than "error" arrives; then the tasks parsed before any
   * JSONException are checked against the home directory.
   */
  method OnAnswerList(response: AnswerListResponse, listing: Option<seq<LocalFile>>) returns (downloads: seq<Fetch>)
    ensures !response.ListBody? || response.text == "error" || listing.None? ==> downloads == []
    ensures response.ListBody? && response.text != "error" && listing.Some? ==>
              var answers := AnswerMapOf(TasksBeforeError(response.tasks));
              && (forall id :: id in DownloadIds(downloads) <==> Due(answers, listing.value, id))
              && (forall j :: 0 <= j < |downloads| ==> downloads[j].id in answers && downloads[j].url == answers[downloads[j].id])
    ensures DistinctIds(downloads)
  {
    downloads := [];
    if !response.ListBody? || response.text == "error" {
      return;
    }
    var answers := BuildAnswerMap(response.tasks);
    if |answers| > 0 {
      downloads := CheckAndDownload(listing, answers);
    }
  }
}
