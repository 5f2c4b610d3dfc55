/** The JSON-lines file writer: one buffered handle, numbered generations, old ones pruned. The directory is a
    map from generations to lines; files of other runs under the same prefix lie beside them, with the
    number read from each name. */
module EventWriter {
  import opened Basics
  import opened LogStream

  class FileWriter {
    const cfg: Config
    const keptFiles: nat
    const bufferBytes: nat

    var handleOpen: bool
    var rotation: nat
    var bytesOnDisk: nat
    var bufferCount: nat
    var buffer: seq<Line>
    /** The directory: what each surviving generation's file holds. */
    var disk: map<nat, seq<Line>>

    /** Files of other runs under the same prefix, with the rotation number read from each name. */
    var others: map<string, Option<int>>
    ghost const found: map<string, Option<int>>

    /** Every line accepted so far, by generation and as one stream. */
    ghost var generations: seq<seq<Line>>
    ghost var stream: seq<Line>

    /** A name without a rotation number is never pruned; another is judged by this run's rotation. */
    predicate Spared(number: Option<int>)
      reads `rotation
    {
      number.None? || rotation < number.value + keptFiles
    }

    ghost predicate Kept(r: nat)
      reads this
    {
      r < |generations| && rotation < r + keptFiles && cfg.opens(r)
    }

    /** What the file of generation `r` will hold once the buffer is flushed. */
    ghost function Contents(r: nat): seq<Line>
      requires r in disk
      reads this
    {
      if r == rotation then disk[r] + buffer else disk[r]
    }

    /** The directory holds exactly the newest generations, each complete once the buffer is
        added to the current one. */
    ghost predicate Complete()
      reads this
    {
      && keptFiles >= 1 && bufferBytes >= 1
      && stream == Concat(generations)
      && (generations == [] ==> rotation == 0 && !handleOpen)
      && (generations != [] ==> |generations| == rotation + 1)
      && (handleOpen ==> generations != [] && cfg.opens(rotation))
      && (!handleOpen ==> buffer == [])
      && bufferCount == TextBytes(cfg, buffer)
      && (forall r: nat :: r in disk <==> Kept(r))
      && (forall r: nat :: r in disk ==> Contents(r) == generations[r])
      && OthersAreSpared()
    }

    /** Between calls the buffer is below its limit. */
    ghost predicate Valid()
      reads this
    {
      Complete() && bufferCount < bufferBytes
    }

    /** Before the first rotation nothing was pruned; then the files this run's rotation spares are left. */
    ghost predicate OthersAreSpared()
      reads `rotation, `others
    {
      && (rotation == 0 ==> others == found)
      && (rotation > 0 ==> others == map name | name in found && Spared(found[name]) :: found[name])
    }

    function BytesInCurrentFile(): nat
      reads this
    {
      bytesOnDisk + bufferCount
    }

    constructor (cfg: Config, keptFiles: nat, bufferBytes: nat, found: map<string, Option<int>>)
      ensures Valid() && this.cfg == cfg && this.found == found
      ensures this.keptFiles == (if keptFiles >= 1 then keptFiles else 1)
      ensures this.bufferBytes == (if bufferBytes >= 1_024 then bufferBytes else 1_024)
      ensures stream == [] && generations == [] && !handleOpen && rotation == 0 && BytesInCurrentFile() == 0
    {
      this.cfg := cfg;
      this.keptFiles := if keptFiles >= 1 then keptFiles else 1;
      this.bufferBytes := if bufferBytes >= 1_024 then bufferBytes else 1_024;
      handleOpen, rotation, bytesOnDisk, bufferCount := false, 0, 0, 0;
      buffer, disk := [], map[];
      stream, generations := [], [];
      others, this.found := found, found;
    }

    method OpenFirstFile() returns (ok: bool)
      requires Valid() && generations == []
      modifies this
      ensures Valid() && ok == cfg.opens(0) == handleOpen
      ensures rotation == 0 && BytesInCurrentFile() == 0 && stream == old(stream) && |generations| == 1
    {
      ok := Open(0);
    }

    method Write(lines: seq<Line>)
      requires Valid()
      modifies `buffer, `bufferCount, `disk, `bytesOnDisk, `stream, `generations
      ensures Valid() && handleOpen == old(handleOpen) && rotation == old(rotation)
      ensures stream == if handleOpen then old(stream) + lines else old(stream)
      ensures generations == [] <==> old(generations) == []
      ensures generations == old(if handleOpen then generations[rotation := generations[rotation] + lines]
                                 else generations)
      ensures BytesInCurrentFile() == old(BytesInCurrentFile()) + if handleOpen then TextBytes(cfg, lines) else 0
    {
      if !handleOpen { return; }
      BufferLines(lines);
      hide Complete;
      if bufferCount >= bufferBytes { FlushBuffer(); }
    }

    method BufferLines(lines: seq<Line>)
      requires Complete() && handleOpen
      modifies `buffer, `bufferCount, `stream, `generations
      ensures Complete() && buffer == old(buffer) + lines && stream == old(stream) + lines
      ensures generations == old(generations[rotation := generations[rotation] + lines])
      ensures bufferCount == old(bufferCount) + TextBytes(cfg, lines)
    {
      hide Concat, OthersAreSpared;
      ConcatExtendLast(generations, lines);
      BytesOfConcatenation(cfg, buffer, lines);
      buffer := buffer + lines;
      bufferCount := bufferCount + TextBytes(cfg, lines);
      stream := stream + lines;
      generations := generations[rotation := generations[rotation] + lines];
    }

    method Synchronize()
      requires Valid()
      modifies this
      ensures Valid() && handleOpen == old(handleOpen) && rotation == old(rotation) && generations == old(generations)
      ensures stream == old(stream) && BytesInCurrentFile() == old(BytesInCurrentFile())
      ensures buffer == []
    {
      FlushBuffer();
    }

    method RotateToNextFile() returns (ok: bool)
      requires Valid() && generations != []
      modifies this
      ensures Valid() && ok == cfg.opens(rotation) == handleOpen
      ensures rotation == old(rotation) + 1 && BytesInCurrentFile() == 0 && stream == old(stream)
      ensures generations == old(generations) + [[]]
    {
      hide Concat, TextBytes;
      FlushBuffer();
      handleOpen := false;
      rotation := rotation + 1;
      PruneOldFiles();
      ok := Open(rotation);
    }

    method CloseFile()
      requires Valid()
      modifies this
      ensures Valid() && !handleOpen && rotation == old(rotation) && generations == old(generations)
      ensures stream == old(stream) && BytesInCurrentFile() == old(BytesInCurrentFile())
    {
      FlushBuffer();
      handleOpen := false;
    }

    method FlushBuffer()
      requires Complete()
      modifies `buffer, `bufferCount, `disk, `bytesOnDisk
      ensures Valid() && buffer == [] && handleOpen == old(handleOpen) && rotation == old(rotation)
      ensures stream == old(stream) && generations == old(generations)
      ensures BytesInCurrentFile() == old(BytesInCurrentFile())
    {
      if !handleOpen || buffer == [] { return; }
      disk := disk[rotation := disk[rotation] + buffer];
      bytesOnDisk := bytesOnDisk + bufferCount;
      buffer, bufferCount := [], 0;
    }

    /** Every file with a number that fell out of the window goes, whichever run it is from. */
    method PruneOldFiles()
      modifies this`disk, this`others
      ensures forall r: nat :: r in disk <==> r in old(disk) && rotation < r + keptFiles
      ensures forall r: nat :: r in disk ==> disk[r] == old(disk)[r]
      ensures others == map name | name in old(others) && Spared(old(others)[name]) :: old(others)[name]
    {
      disk := map r | r in disk && rotation < r + keptFiles :: disk[r];
      others := map name | name in others && Spared(others[name]) :: others[name];
    }

    /** Creates the file of generation `rot`; a file that cannot be created leaves no handle. */
    method Open(rot: nat) returns (ok: bool)
      requires keptFiles >= 1 && bufferBytes >= 1 && stream == Concat(generations) && buffer == []
      requires rot == rotation == |generations| && !handleOpen
      requires forall r: nat :: r in disk <==> Kept(r)
      requires forall r: nat :: r in disk ==> r < |generations| && disk[r] == generations[r]
      requires OthersAreSpared()
      modifies `bufferCount, `bytesOnDisk, `handleOpen, `disk, `generations
      ensures Valid() && ok == cfg.opens(rot) == handleOpen && BytesInCurrentFile() == 0
      ensures generations == old(generations) + [[]]
    {
      hide Concat;
      ConcatSnoc(generations, []);
      bufferCount, bytesOnDisk := 0, 0;
      ok := cfg.opens(rot);
      handleOpen := ok;
      generations := generations + [[]];
      if ok {
        disk := disk[rot := []];
      }
    }

    /** Once synchronized, the surviving files are the newest generations, complete. */
    lemma FilesAreTheirGenerations(r: nat)
      requires Valid() && buffer == [] && r < |generations|
      ensures r in disk <==> rotation < r + keptFiles && cfg.opens(r)
      ensures r in disk ==> disk[r] == generations[r]
    {
      if r in disk {
        assert Contents(r) == generations[r];
      }
    }

    /** After a rotation a file of another run is left exactly when its number lies in this run's
        window, or its name has none. */
    lemma OtherRunsLoseFilesExactlyWhen(name: string)
      requires Valid() && rotation > 0 && name in found
      ensures name in others <==> found[name].None? || found[name].value > rotation - keptFiles
    {
    }

    /** The directory never holds more than `keptFiles` generations. */
    lemma AtMostKeptFiles()
      requires Valid()
      ensures |disk| <= keptFiles
    {
      var low := if rotation + 1 >= keptFiles then rotation + 1 - keptFiles else 0;
      WindowSize(disk.Keys, low, rotation + 1);
    }
  }

  /** Another run's file is lost: with one kept file, the first rotation takes its file number 0. */
  method RotationTakesAnothersFile(cfg: Config) returns (writer: FileWriter)
    ensures fresh(writer) && writer.Valid() && writer.rotation == 1
    ensures "gameplay-old-0.jsonl" in writer.found && "gameplay-old-0.jsonl" !in writer.others
  {
    writer := new FileWriter(cfg, 1, 1_024, map["gameplay-old-0.jsonl" := Some(0)]);
    var opens := writer.OpenFirstFile();
    opens := writer.RotateToNextFile();
    writer.OtherRunsLoseFilesExactlyWhen("gameplay-old-0.jsonl");
  }

  function Concat(generations: seq<seq<Line>>): seq<Line> {
    if generations == [] then []
    else Concat(generations[..|generations| - 1]) + generations[|generations| - 1]
  }

  lemma ConcatSnoc(generations: seq<seq<Line>>, last: seq<Line>)
    ensures Concat(generations + [last]) == Concat(generations) + last
  {
    assert (generations + [last])[..|generations|] == generations;
  }

  lemma ConcatExtendLast(generations: seq<seq<Line>>, lines: seq<Line>)
    requires generations != []
    ensures var n := |generations| - 1;
            Concat(generations[n := generations[n] + lines]) == Concat(generations) + lines
  {
    var n := |generations| - 1;
    assert generations[n := generations[n] + lines] == generations[..n] + [generations[n] + lines];
    assert generations == generations[..n] + [generations[n]];
    ConcatSnoc(generations[..n], generations[n] + lines);
    ConcatSnoc(generations[..n], generations[n]);
  }

  lemma {:induction false} WindowSize(keys: set<nat>, low: nat, high: nat)
    requires low <= high && forall r :: r in keys ==> low <= r < high
    ensures |keys| <= high - low
    decreases high
  {
    if low < high {
      WindowSize(keys - {high - 1}, low, high - 1);
    } else {
      assert keys == {};
    }
  }
}
