/** Where HttpRequestImpl keeps a body: in memory up to a limit, then in a cache file. */
module BodyStore {
  import opened Wrappers

  /** content_, and the bytes written to the cache file if there is one. */
  datatype Body = Body(content: string, file: Option<string>)

  const EMPTY := Body("", None)

  /** reserveBodySize: a length above the memory limit goes to a file from the start. */
  function Reserve(b: Body, length: nat, maxMemory: nat): Body {
    if length <= maxMemory then b else b.(file := Some(""))
  }

  function Append(b: Body, data: string, maxMemory: nat): Body {
    if b.file.Some? then b.(file := Some(b.file.value + data))
    else if |b.content| + |data| <= maxMemory then b.(content := b.content + data)
    else Body("", Some(b.content + data))
  }

  /** bodyView: the file if there is one, else memory. */
  function View(b: Body): string {
    if b.file.Some? then b.file.value else b.content
  }

  /** Memory stays within the limit, and is empty once there is a file. */
  predicate Within(b: Body, maxMemory: nat) {
    |b.content| <= maxMemory && (b.file.Some? ==> b.content == "")
  }

  function AppendAll(b: Body, pieces: seq<string>, maxMemory: nat): Body
    decreases |pieces|
  {
    if pieces == [] then b else AppendAll(Append(b, pieces[0], maxMemory), pieces[1..], maxMemory)
  }

  function Concat(pieces: seq<string>): string {
    if pieces == [] then "" else pieces[0] + Concat(pieces[1..])
  }

  lemma AppendViews(b: Body, data: string, maxMemory: nat)
    requires Within(b, maxMemory)
    ensures Within(Append(b, data, maxMemory), maxMemory)
    ensures View(Append(b, data, maxMemory)) == View(b) + data
  {
  }

  /** Where the pieces are cut does not matter. */
  lemma AppendTwice(b: Body, x: string, y: string, maxMemory: nat)
    requires Within(b, maxMemory)
    ensures Append(Append(b, x, maxMemory), y, maxMemory) == Append(b, x + y, maxMemory)
  {
    assert b.content + x + y == b.content + (x + y);
    if b.file.Some? {
      assert b.file.value + x + y == b.file.value + (x + y);
    }
  }

  lemma {:induction false} AppendAllViews(b: Body, pieces: seq<string>, maxMemory: nat)
    requires Within(b, maxMemory)
    ensures Within(AppendAll(b, pieces, maxMemory), maxMemory)
    ensures View(AppendAll(b, pieces, maxMemory)) == View(b) + Concat(pieces)
    decreases |pieces|
  {
    if pieces != [] {
      AppendViews(b, pieces[0], maxMemory);
      AppendAllViews(Append(b, pieces[0], maxMemory), pieces[1..], maxMemory);
      assert View(b) + pieces[0] + Concat(pieces[1..]) == View(b) + (pieces[0] + Concat(pieces[1..]));
    }
  }

  /**
   Whatever was reserved and however the data was cut, the view is the data, and memory never holds more
   than the limit.
   */
  lemma StoredBody(length: nat, pieces: seq<string>, maxMemory: nat)
    ensures var b := AppendAll(Reserve(EMPTY, length, maxMemory), pieces, maxMemory);
      View(b) == Concat(pieces) && Within(b, maxMemory)
  {
    AppendAllViews(Reserve(EMPTY, length, maxMemory), pieces, maxMemory);
  }

  lemma {:induction false} FileStays(b: Body, pieces: seq<string>, maxMemory: nat)
    requires Within(b, maxMemory)
    ensures AppendAll(b, pieces, maxMemory).file.Some? <==>
      b.file.Some? || |b.content| + |Concat(pieces)| > maxMemory
    decreases |pieces|
  {
    if pieces != [] {
      AppendViews(b, pieces[0], maxMemory);
      FileStays(Append(b, pieces[0], maxMemory), pieces[1..], maxMemory);
    }
  }

  /** A file is made exactly for a body that was announced, or turns out, longer than the memory limit. */
  lemma {:induction false} FileExactlyWhen(length: nat, pieces: seq<string>, maxMemory: nat)
    ensures AppendAll(Reserve(EMPTY, length, maxMemory), pieces, maxMemory).file.Some? <==>
      length > maxMemory || |Concat(pieces)| > maxMemory
  {
    FileStays(Reserve(EMPTY, length, maxMemory), pieces, maxMemory);
  }

  // ---------------------------------------------------------------- a body looked at while it comes in

  /** More data arrives, or somebody looks at the body. */
  datatype Use = Adds(data: string) | Looks

  /** The stored body, and what of its file was mapped into memory by the first look that found something there. */
  datatype Watched = Watched(b: Body, mapped: Option<string>)

  /** What a look shows. */
  function Shown(w: Watched): string {
    if w.b.file.Some? && w.mapped.Some? then w.mapped.value else View(w.b)
  }

  function Used(w: Watched, u: Use, maxMemory: nat): Watched {
    match u
    case Adds(data) => w.(b := Append(w.b, data, maxMemory))
    case Looks => if w.b.file.Some? && w.mapped.None? && w.b.file.value != "" then w.(mapped := w.b.file) else w
  }

  function UsedAll(w: Watched, us: seq<Use>, maxMemory: nat): Watched
    decreases |us|
  {
    if us == [] then w else UsedAll(Used(w, us[0], maxMemory), us[1..], maxMemory)
  }

  /** Data arrives after a look that found data in the file. */
  predicate ComesLate(w: Watched, us: seq<Use>, maxMemory: nat)
    decreases |us|
  {
    us != [] &&
    ((us[0].Adds? && us[0].data != "" && w.mapped.Some?) || ComesLate(Used(w, us[0], maxMemory), us[1..], maxMemory))
  }

  /** What was mapped is shorter than the file, and stays so. */
  lemma {:induction false} StaysShort(w: Watched, us: seq<Use>, maxMemory: nat)
    requires w.b.file.Some? && w.mapped.Some? && |w.mapped.value| < |w.b.file.value|
    ensures Shown(UsedAll(w, us, maxMemory)) != View(UsedAll(w, us, maxMemory).b)
    decreases |us|
  {
    if us != [] {
      StaysShort(Used(w, us[0], maxMemory), us[1..], maxMemory);
    }
  }

  lemma {:induction false} ShownFrom(w: Watched, us: seq<Use>, maxMemory: nat)
    requires w.mapped.Some? ==> w.b.file == w.mapped
    ensures var r := UsedAll(w, us, maxMemory); Shown(r) == View(r.b) <==> !ComesLate(w, us, maxMemory)
    decreases |us|
  {
    if us != [] {
      var w1 := Used(w, us[0], maxMemory);
      if us[0].Adds? && us[0].data != "" && w.mapped.Some? {
        StaysShort(w1, us[1..], maxMemory);
      } else {
        assert us[0].Adds? && us[0].data == "" && w.mapped.Some? ==> w.b.file.value + "" == w.b.file.value;
        ShownFrom(w1, us[1..], maxMemory);
      }
    }
  }

  /** In every run, the body that is shown is the stored one exactly when no data came after a look that found some. */
  lemma ShownIsStored(length: nat, us: seq<Use>, maxMemory: nat)
    ensures var w := Watched(Reserve(EMPTY, length, maxMemory), None);
      var r := UsedAll(w, us, maxMemory);
      Shown(r) == View(r.b) <==> !ComesLate(w, us, maxMemory)
  {
    ShownFrom(Watched(Reserve(EMPTY, length, maxMemory), None), us, maxMemory);
  }

  // ---------------------------------------------------------------- the objects

  /** A file that is mapped into memory when it is first read, and not again. */
  class CacheFile {
    var log: string
    var mapped: Option<string>

    constructor ()
      ensures log == "" && mapped == None
    {
      log, mapped := "", None;
    }

    method AppendData(data: string)
      modifies this`log
      ensures log == old(log) + data
    {
      log := log + data;
    }

    /** Mapping an empty file fails, so it is tried again on the next read. */
    method GetStringView() returns (view: string)
      modifies this`mapped
      ensures view == if old(mapped).Some? then old(mapped).value else log
      ensures mapped == if old(mapped).Some? || log == "" then old(mapped) else Some(log)
    {
      if mapped.None? && log != "" {
        mapped := Some(log);
      }
      view := if mapped.Some? then mapped.value else "";
    }
  }

  class RequestBody {
    var content: string
    var cacheFile: CacheFile?

    ghost function State(): Body
      reads this, cacheFile
    {
      Body(content, if cacheFile == null then None else Some(cacheFile.log))
    }

    ghost function Watching(): Watched
      reads this, cacheFile
    {
      Watched(State(), if cacheFile == null then None else cacheFile.mapped)
    }

    constructor ()
      ensures State() == EMPTY && cacheFile == null
    {
      content, cacheFile := "", null;
    }

    method ReserveBodySize(length: nat, maxMemory: nat)
      modifies this`cacheFile
      ensures State() == Reserve(old(State()), length, maxMemory)
      ensures cacheFile == old(cacheFile) || (fresh(cacheFile) && cacheFile.mapped == None)
    {
      if length > maxMemory {
        cacheFile := new CacheFile();
      }
    }

    method AppendToBody(data: string, maxMemory: nat)
      modifies this, cacheFile
      ensures Watching() == Used(old(Watching()), Adds(data), maxMemory)
      ensures State() == Append(old(State()), data, maxMemory)
      ensures cacheFile == old(cacheFile) || (fresh(cacheFile) && cacheFile.mapped == None)
      ensures old(cacheFile) != null ==> cacheFile == old(cacheFile) && cacheFile.mapped == old(cacheFile.mapped)
    {
      if cacheFile != null {
        cacheFile.AppendData(data);
      } else if |content| + |data| <= maxMemory {
        content := content + data;
      } else {
        cacheFile := new CacheFile();
        cacheFile.AppendData(content);
        assert cacheFile.log == content;
        cacheFile.AppendData(data);
        content := "";
      }
    }

    /**
     Read for the first time after all appends, the view is the stored body; a mapping made earlier
     stays as it was.
     */
    method BodyView() returns (view: string)
      modifies cacheFile
      ensures State() == old(State()) && cacheFile == old(cacheFile)
      ensures view == Shown(old(Watching())) && Watching() == Used(old(Watching()), Looks, 0)
      ensures cacheFile == null || old(cacheFile.mapped).None? ==> view == View(State())
      ensures cacheFile != null && old(cacheFile.mapped).Some? ==> view == old(cacheFile.mapped.value)
      ensures cacheFile != null ==>
        cacheFile.mapped == if old(cacheFile.mapped).Some? || cacheFile.log == "" then old(cacheFile.mapped)
          else Some(cacheFile.log)
    {
      if cacheFile != null {
        view := cacheFile.GetStringView();
      } else {
        view := content;
      }
    }
  }

  /** A body read before its last piece arrived is cut short on every later read. */
  method ReadTooEarly(first: string, second: string) returns (early: string, late: string)
    requires first != ""
    ensures early == first && late == first
  {
    var b := new RequestBody();
    b.ReserveBodySize(1, 0);
    b.AppendToBody(first, 0);
    early := b.BodyView();
    b.AppendToBody(second, 0);
    late := b.BodyView();
  }
}
