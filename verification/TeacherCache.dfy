/** The teacher's cache files: stamped, rechecked on every read, and so as good as a fresh build. */
module TeacherCache {
  import Cooccurrence
  import CooccurrenceCount
  import CooccurrenceWeights
  import Holdout
  import Neighbours
  import NeighbourSearch
  import Sequences
  import opened TeacherInputs
  import opened Wrappers

  type Rule = Neighbours.Rule

  /** Every setting a fitted table depends on. */
  datatype FitSettings = FitSettings(deckSplits: set<Holdout.Split>, cardTiers: set<Holdout.CardTier>,
                                     cooccurrence: CooccurrenceWeights.Options, fitMethod: string, minDeckCount: nat)

  datatype Settings = Settings(games: seq<string>, fit: FitSettings, neighbours: Rule, directory: string)

  datatype Stamp = Stamp(deckSnapshot: string, deckSplitKey: Holdout.DeckSplitKey, cardTierKey: Holdout.CardTierKey,
                         fitDigest: string)

  datatype Table = Table(game: string, cardUuids: seq<string>, vectors: seq<seq<real>>, deckCounts: seq<nat>,
                         confident: seq<bool>, stamp: Stamp)

  datatype TeacherNeighbours = TeacherNeighbours(stamp: Stamp, rule: Rule, found: NeighbourSearch.TeacherNeighbours)

  datatype Teacher = Teacher(table: Table, neighbours: TeacherNeighbours)

  datatype Fitted = Vectors(vectors: seq<seq<real>>) | FitRaises(message: string)

  datatype Failure = NotConfigured | HeldOut | NothingSelected(counting: CooccurrenceCount.Counting)
                   | FitFailed(message: string) | MisshapenTable | WriteFailed | Inconsistent

  datatype Result<T> = Ok(value: T) | Err(failure: Failure)

  /** Fitting vectors to counts, ranking a table's rows, content stamps and digests, the short tags the file names
      carry, the hash the holdout reads and the weights' two functions. */
  datatype World = World(fit: (CooccurrenceCount.Counts, string) -> Fitted,
                         find: (Table, Rule) -> NeighbourSearch.TeacherNeighbours,
                         snapshotStamp: DeckSnapshot -> string, digest: FitSettings -> string,
                         tag: Stamp -> string, ruleTag: Rule -> string,
                         hash: string -> nat, maths: CooccurrenceWeights.Maths)

  /** Content stamps and digests tell contents apart; tags need not. The search gives each row its slice. */
  ghost predicate ValidWorld(world: World) {
    && TellsApart(world.snapshotStamp)
    && (forall a, b :: world.digest(a) == world.digest(b) ==> a == b)
    && (forall table, rule :: |world.find(table, rule).offsets| == |table.cardUuids| + 1)
    && CooccurrenceWeights.ValidMaths(world.maths)
  }

  ghost predicate ValidInputs(world: World, inputs: TeacherInputs) {
    Valid(inputs, world.snapshotStamp, world.hash)
  }

  // ----- a fresh build

  function StampFor(world: World, inputs: TeacherInputs, settings: Settings): Stamp
    requires Holdout.Valid(inputs.holdout)
  {
    Stamp(world.snapshotStamp(inputs.decks), inputs.index.key, Holdout.TierKeyOf(inputs.holdout),
          world.digest(settings.fit))
  }

  /** count_cooccurrence over the decks and the cards the holdout selects. */
  function Count(world: World, inputs: TeacherInputs, fit: FitSettings): CooccurrenceCount.Counting
    requires ValidWorld(world) && ValidInputs(world, inputs)
  {
    CountIsReady(inputs, fit.deckSplits, fit.cardTiers, world.snapshotStamp, world.hash);
    CooccurrenceCount.CountsOf(ToCount(inputs, fit.deckSplits, fit.cardTiers, world.hash), fit.cooccurrence,
                               world.maths)
  }

  lemma CountedRowsAreCards(world: World, inputs: TeacherInputs, fit: FitSettings)
    requires ValidWorld(world) && ValidInputs(world, inputs) && Count(world, inputs, fit).Counted?
    ensures forall i :: 0 <= i < |Count(world, inputs, fit).counts.cardRows| ==>
              Count(world, inputs, fit).counts.cardRows[i] < |inputs.decks.cardUuids|
  {
    var mask := SelectedCardMask(inputs, fit.cardTiers, world.hash);
    Sequences.TrueIndicesAreTheSetOnes(mask, |mask|);
  }

  /** _built_table: count, fit and flag confidence. */
  function BuiltTable(world: World, inputs: TeacherInputs, settings: Settings): Result<Table>
    requires ValidWorld(world) && ValidInputs(world, inputs)
  {
    var counting := Count(world, inputs, settings.fit);
    if !counting.Counted? then Err(NothingSelected(counting))
    else
      CountedRowsAreCards(world, inputs, settings.fit);
      var counts, cards := counting.counts, inputs.decks.cardUuids;
      var cardUuids := seq(|counts.cardRows|, i requires 0 <= i < |counts.cardRows| => cards[counts.cardRows[i]]);
      match world.fit(counts, settings.fit.fitMethod)
      case FitRaises(message) => Err(FitFailed(message))
      case Vectors(vectors) =>
        if |vectors| != |cardUuids| || |counts.deckCounts| != |cardUuids| then Err(MisshapenTable)
        else Ok(Table(inputs.decks.game, cardUuids, vectors, counts.deckCounts,
                      Confident(counts.deckCounts, settings.fit.minDeckCount), StampFor(world, inputs, settings)))
  }

  function Confident(deckCounts: seq<nat>, least: nat): seq<bool> {
    seq(|deckCounts|, i requires 0 <= i < |deckCounts| => deckCounts[i] >= least)
  }

  function Found(world: World, table: Table, rule: Rule): TeacherNeighbours {
    TeacherNeighbours(table.stamp, rule, world.find(table, rule))
  }

  function NotBuildable(inputs: TeacherInputs, settings: Settings): Option<Failure> {
    if inputs.decks.game !in settings.games then Some(NotConfigured)
    else if inputs.decks.game in inputs.holdout.heldOutGames then Some(HeldOut)
    else None
  }

  /** What a build without any cache gives. */
  function Fresh(world: World, inputs: TeacherInputs, settings: Settings): Result<Teacher>
    requires ValidWorld(world) && ValidInputs(world, inputs)
  {
    if NotBuildable(inputs, settings).Some? then Err(NotBuildable(inputs, settings).value)
    else
      match BuiltTable(world, inputs, settings)
      case Err(failure) => Err(failure)
      case Ok(table) => Ok(Teacher(table, Found(world, table, settings.neighbours)))
  }

  /** A game is refused exactly when it is not configured, or else held out. */
  lemma RefusedExactlyWhenNotConfiguredOrHeldOut(world: World, inputs: TeacherInputs, settings: Settings)
    requires ValidWorld(world) && ValidInputs(world, inputs)
    ensures Fresh(world, inputs, settings) == Err(NotConfigured) <==> inputs.decks.game !in settings.games
    ensures Fresh(world, inputs, settings) == Err(HeldOut) <==>
            inputs.decks.game in settings.games && inputs.decks.game in inputs.holdout.heldOutGames
  {
    hide Count;
  }

  /** A built table has one row per kept card, in snapshot order, with the vectors fitted to the counts, the number of
      selected decks holding the card, and confidence where that number reaches the least count. */
  lemma TableRowsAreTheKeptCards(world: World, inputs: TeacherInputs, settings: Settings, i: nat)
    requires ValidWorld(world) && ValidInputs(world, inputs) && BuiltTable(world, inputs, settings).Ok?
    requires i < |BuiltTable(world, inputs, settings).value.cardUuids|
    ensures var table := BuiltTable(world, inputs, settings).value;
            var counting := Count(world, inputs, settings.fit);
            && counting.Counted? && table.game == inputs.decks.game
            && |table.cardUuids| == |table.vectors| == |table.deckCounts| == |table.confident|
               == |counting.counts.cardRows|
            && counting.counts.cardRows[i] < |inputs.decks.cardUuids|
            && table.cardUuids[i] == inputs.decks.cardUuids[counting.counts.cardRows[i]]
            && Vectors(table.vectors) == world.fit(counting.counts, settings.fit.fitMethod)
            && table.deckCounts == counting.counts.deckCounts
            && (table.confident[i] <==> table.deckCounts[i] >= settings.fit.minDeckCount)
  {
    CountedRowsAreCards(world, inputs, settings.fit);
    hide Count;
  }

  /** Equal stamps mean equal tables: the build reads each card's tier and each deck's split from the holdout and
      the index, and the stamp's two keys fix them all. */
  lemma StampCoversTheBuild(world: World, a: TeacherInputs, s: Settings, b: TeacherInputs, t: Settings)
    requires ValidWorld(world) && ValidInputs(world, a) && ValidInputs(world, b)
    requires StampFor(world, a, s) == StampFor(world, b, t)
    ensures BuiltTable(world, a, s) == BuiltTable(world, b, t)
  {
    hide ToCount, CooccurrenceCount.CountsOf, Valid, Holdout.TierKeyOf;
    EqualKeysCountAlike(a, b, s.fit.deckSplits, s.fit.cardTiers, world.snapshotStamp, world.hash);
  }

  // ----- the cache files

  datatype Path = TablePath(directory: string, game: string, tag: string)
                | NeighboursPath(directory: string, game: string, tag: string, ruleTag: string)

  /** Unreadable: missing a key, of another format, truncated, or not Arrow at all. */
  datatype File = Unreadable | TableFile(table: Table) | NeighboursFile(neighbours: TeacherNeighbours)

  type Files = map<Path, File>

  function TablePathFor(world: World, inputs: TeacherInputs, settings: Settings): Path
    requires Holdout.Valid(inputs.holdout)
  {
    TablePath(settings.directory, inputs.decks.game, world.tag(StampFor(world, inputs, settings)))
  }

  function NeighboursPathFor(world: World, inputs: TeacherInputs, settings: Settings): Path
    requires Holdout.Valid(inputs.holdout)
  {
    NeighboursPath(settings.directory, inputs.decks.game, world.tag(StampFor(world, inputs, settings)),
                   world.ruleTag(settings.neighbours))
  }

  /** _cached_table: the table at `path` if it reads cleanly and records `stamp`. */
  function CachedTable(files: Files, path: Path, stamp: Stamp): Option<Table> {
    if path !in files || !files[path].TableFile? then None
    else if files[path].table.stamp != stamp then None
    else Some(files[path].table)
  }

  function RowCount(neighbours: TeacherNeighbours): int {
    |neighbours.found.offsets| - 1
  }

  /** _cached_neighbours: rule, stamp and row count are all rechecked. */
  function CachedNeighbours(files: Files, path: Path, stamp: Stamp, rule: Rule, rows: nat): Option<TeacherNeighbours> {
    if path !in files || !files[path].NeighboursFile? then None
    else if files[path].neighbours.rule != rule then None
    else if files[path].neighbours.stamp != stamp then None
    else if RowCount(files[path].neighbours) != rows then None
    else Some(files[path].neighbours)
  }

  /** One call: its inputs and settings, and whether its writes succeed. */
  datatype Call = Call(inputs: TeacherInputs, settings: Settings, tableWrites: bool, neighboursWrite: bool)

  /** Every readable file, wherever it lies, holds what the stamp (and rule) it records says it holds. */
  ghost predicate IsHonest(world: World, files: Files)
    requires ValidWorld(world)
  {
    forall path :: path in files ==> IsHonestFile(world, files[path])
  }

  ghost predicate IsHonestFile(world: World, file: File)
    requires ValidWorld(world)
  {
    match file
    case Unreadable => true
    case TableFile(table) => forall inputs, settings :: IsStampOf(world, inputs, settings, table.stamp) ==>
                               BuiltTable(world, inputs, settings) == Ok(table)
    case NeighboursFile(n) => forall inputs, settings :: IsStampOf(world, inputs, settings, n.stamp) ==>
                                BuiltTable(world, inputs, settings).Ok?
                                && n == Found(world, BuiltTable(world, inputs, settings).value, n.rule)
  }

  ghost predicate IsStampOf(world: World, inputs: TeacherInputs, settings: Settings, stamp: Stamp) {
    ValidInputs(world, inputs) && StampFor(world, inputs, settings) == stamp
  }

  lemma BuiltFilesAreHonest(world: World, inputs: TeacherInputs, settings: Settings, rule: Rule)
    requires ValidWorld(world) && ValidInputs(world, inputs) && BuiltTable(world, inputs, settings).Ok?
    ensures var table := BuiltTable(world, inputs, settings).value;
            && table.stamp == StampFor(world, inputs, settings)
            && IsHonestFile(world, TableFile(table)) && IsHonestFile(world, NeighboursFile(Found(world, table, rule)))
  {
    hide ValidInputs, Count;
    var table := BuiltTable(world, inputs, settings).value;
    forall other, s | IsStampOf(world, other, s, table.stamp) ensures BuiltTable(world, other, s) == Ok(table) {
      StampCoversTheBuild(world, inputs, settings, other, s);
    }
  }

  // ----- what a call answers and leaves, given the files it finds

  predicate NeedsTable(world: World, files: Files, call: Call)
    requires Holdout.Valid(call.inputs.holdout)
  {
    CachedTable(files, TablePathFor(world, call.inputs, call.settings),
                StampFor(world, call.inputs, call.settings)) == None
  }

  predicate NeedsNeighbours(world: World, files: Files, call: Call, rows: nat)
    requires Holdout.Valid(call.inputs.holdout)
  {
    CachedNeighbours(files, NeighboursPathFor(world, call.inputs, call.settings),
                     StampFor(world, call.inputs, call.settings),
                     call.settings.neighbours, rows) == None
  }

  /** A file the call needs is not cached, and its write fails. */
  predicate FailsToWrite(world: World, files: Files, call: Call)
    requires ValidWorld(world) && ValidInputs(world, call.inputs) && Fresh(world, call.inputs, call.settings).Ok?
  {
    || (NeedsTable(world, files, call) && !call.tableWrites)
    || (NeedsNeighbours(world, files, call, |Fresh(world, call.inputs, call.settings).value.table.cardUuids|)
        && !call.neighboursWrite)
  }

  /** The fresh teacher, or the fresh build's own error; a failed write exactly when one was needed and failed. */
  ghost predicate IsFreshUnlessUnwritten(world: World, files: Files, call: Call, result: Result<Teacher>) {
    && ValidWorld(world) && ValidInputs(world, call.inputs)
    && var wanted := Fresh(world, call.inputs, call.settings);
       result == if wanted.Ok? && FailsToWrite(world, files, call) then Err(WriteFailed) else wanted
  }

  function AfterTable(world: World, files: Files, call: Call, table: Table): Files
    requires Holdout.Valid(call.inputs.holdout)
  {
    if NeedsTable(world, files, call) && call.tableWrites
    then files[TablePathFor(world, call.inputs, call.settings) := TableFile(table)] else files
  }

  /** The files a call leaves: each one it needed and could write, and nothing else changed. */
  function FilesAfter(world: World, files: Files, call: Call): Files
    requires ValidWorld(world) && ValidInputs(world, call.inputs)
  {
    var wanted := Fresh(world, call.inputs, call.settings);
    if wanted.Err? then files
    else
      var teacher := wanted.value;
      var between := AfterTable(world, files, call, teacher.table);
      if (NeedsTable(world, files, call) && !call.tableWrites)
         || !NeedsNeighbours(world, files, call, |teacher.table.cardUuids|) || !call.neighboursWrite
      then between
      else between[NeighboursPathFor(world, call.inputs, call.settings) := NeighboursFile(teacher.neighbours)]
  }

  /** In an empty directory a call needs both its files. */
  lemma FirstCallWritesBothFiles(world: World, call: Call)
    requires ValidWorld(world) && ValidInputs(world, call.inputs) && Fresh(world, call.inputs, call.settings).Ok?
    ensures FailsToWrite(world, map[], call) <==> !call.tableWrites || !call.neighboursWrite
    ensures var teacher := Fresh(world, call.inputs, call.settings).value;
            !FailsToWrite(world, map[], call) ==>
              FilesAfter(world, map[], call) ==
              map[TablePathFor(world, call.inputs, call.settings) := TableFile(teacher.table),
                  NeighboursPathFor(world, call.inputs, call.settings) := NeighboursFile(teacher.neighbours)]
  {
    hide ValidInputs, ValidWorld, BuiltTable, Found;
    HoldoutIsValid(world, call.inputs);
  }

  /** Once a call has answered, the same call again needs no write and leaves every file as it is. */
  lemma SecondCallWritesNothing(world: World, files: Files, call: Call, again: Call)
    requires ValidWorld(world) && ValidInputs(world, call.inputs) && Fresh(world, call.inputs, call.settings).Ok?
    requires !FailsToWrite(world, files, call)
    requires again.inputs == call.inputs && again.settings == call.settings
    ensures !FailsToWrite(world, FilesAfter(world, files, call), again)
    ensures FilesAfter(world, FilesAfter(world, files, call), again) == FilesAfter(world, files, call)
  {
    hide ValidInputs, ValidWorld, BuiltTable, Found, StampFor;
    HoldoutIsValid(world, call.inputs);
    FreshIsBuilt(world, call.inputs, call.settings);
  }

  lemma FreshIsBuilt(world: World, inputs: TeacherInputs, settings: Settings)
    requires ValidWorld(world) && ValidInputs(world, inputs) && Fresh(world, inputs, settings).Ok?
    ensures Holdout.Valid(inputs.holdout)
    ensures var (table, found) := (Fresh(world, inputs, settings).value.table,
                                   Fresh(world, inputs, settings).value.neighbours);
            && table.stamp == found.stamp == StampFor(world, inputs, settings)
            && found.rule == settings.neighbours && RowCount(found) == |table.cardUuids|
  {
    hide ValidInputs, BuiltTable, StampFor;
    HoldoutIsValid(world, inputs);
    FoundForItsTable(world, inputs, settings);
  }

  /** A call changes at most two files, its game's under its own settings' directory, stamp and rule. */
  lemma OnlyItsOwnFilesChange(world: World, files: Files, call: Call, path: Path)
    requires ValidWorld(world) && ValidInputs(world, call.inputs) && Holdout.Valid(call.inputs.holdout)
    requires var stamp, settings := StampFor(world, call.inputs, call.settings), call.settings;
             && path != TablePath(settings.directory, call.inputs.decks.game, world.tag(stamp))
             && path != NeighboursPath(settings.directory, call.inputs.decks.game, world.tag(stamp),
                                       world.ruleTag(settings.neighbours))
    ensures path in FilesAfter(world, files, call) <==> path in files
    ensures path in files ==> FilesAfter(world, files, call)[path] == files[path]
  {
    hide ValidInputs, ValidWorld, BuiltTable, Found, StampFor;
  }

  class Cache {
    const world: World
    var files: Files

    constructor (world: World)
      ensures this.world == world && files == map[]
    {
      this.world := world;
      files := map[];
    }

    ghost predicate IsTrusted()
      reads this
    {
      ValidWorld(world) && IsHonest(world, files)
    }

    /** save: atomic, so a failed write leaves the files as they were. */
    method Save(path: Path, file: File, writes: bool) returns (saved: bool)
      modifies this`files
      ensures saved == writes && files == if writes then old(files)[path := file] else old(files)
    {
      if !writes {
        return false;
      }
      files := files[path := file];
      saved := true;
    }

    /** The table: cached, else built and cached. */
    method TableOf(call: Call) returns (result: Result<Table>)
      requires IsTrusted() && ValidInputs(world, call.inputs)
      modifies this`files
      ensures IsTrusted()
      ensures var wanted := BuiltTable(world, call.inputs, call.settings);
              && result == (if wanted.Ok? && NeedsTable(world, old(files), call) && !call.tableWrites
                            then Err(WriteFailed) else wanted)
              && files == if wanted.Ok? then AfterTable(world, old(files), call, wanted.value) else old(files)
    {
      hide ValidInputs, ValidWorld, BuiltTable, IsHonestFile, StampFor;
      HoldoutIsValid(world, call.inputs);
      var stamp, path := StampFor(world, call.inputs, call.settings), TablePathFor(world, call.inputs, call.settings);
      var cached := CachedTable(files, path, stamp);
      if cached.Some? {
        HonestTable(world, files, path, call.inputs, call.settings);
        return Ok(cached.value);
      }
      result := BuiltTable(world, call.inputs, call.settings);
      if result.Ok? {
        BuiltFilesAreHonest(world, call.inputs, call.settings, call.settings.neighbours);
        var saved := Save(path, TableFile(result.value), call.tableWrites);
        if !saved {
          result := Err(WriteFailed);
        }
      }
    }

    /** load_or_build_teacher: what a fresh build gives, unless a write it needed failed. */
    method LoadOrBuildTeacher(call: Call) returns (result: Result<Teacher>)
      requires IsTrusted() && ValidInputs(world, call.inputs)
      modifies this`files
      ensures IsTrusted()
      ensures IsFreshUnlessUnwritten(world, old(files), call, result)
      ensures files == FilesAfter(world, old(files), call)
    {
      hide ValidInputs, ValidWorld, BuiltTable, IsHonestFile, StampFor, Found;
      var failure := NotBuildable(call.inputs, call.settings);
      if failure.Some? {
        return Err(failure.value);
      }
      HoldoutIsValid(world, call.inputs);
      var stamp := StampFor(world, call.inputs, call.settings);
      var table := TableOf(call);
      if table.Err? {
        return Err(table.failure);
      }
      var path, rule := NeighboursPathFor(world, call.inputs, call.settings), call.settings.neighbours;
      FoundForItsTable(world, call.inputs, call.settings);
      var neighbours := CachedNeighbours(files, path, stamp, rule, |table.value.cardUuids|);
      if neighbours == None {
        neighbours := Some(Found(world, table.value, rule));
        BuiltFilesAreHonest(world, call.inputs, call.settings, rule);
        var saved := Save(path, NeighboursFile(neighbours.value), call.neighboursWrite);
        if !saved {
          return Err(WriteFailed);
        }
      } else {
        HonestNeighbours(world, files, path, call.inputs, call.settings);
      }
      if neighbours.value.stamp != table.value.stamp || RowCount(neighbours.value) != |table.value.cardUuids| {
        return Err(Inconsistent);
      }
      result := Ok(Teacher(table.value, neighbours.value));
    }

    /** What may happen to the directory between calls. */
    method Disturb(event: Disturbance)
      requires IsTrusted()
      modifies this`files
      ensures IsTrusted() && files == Disturbed(old(files), event)
    {
      hide IsHonestFile;
      match event {
        case Deleted(path) => files := files - {path};
        case Damaged(path) =>
          files := files[path := Unreadable];
          UnreadableIsHonest(world);
        case CopiedOver(from, to) =>
          if from in files {
            files := files[to := files[from]];
          }
      }
    }

    /** Over any history of calls and disturbances from an empty directory, every call answers what a fresh build
        would, or a failed write exactly when the files then lying there made it write and the write failed. */
    method Replay(history: seq<Event>) returns (results: seq<Result<Teacher>>)
      requires ValidWorld(world) && files == map[]
      requires forall k :: 0 <= k < |history| && history[k].Called? ==> ValidInputs(world, history[k].call.inputs)
      modifies this`files
      ensures |results| == |history| && files == FilesOf(world, history)
      ensures forall k :: 0 <= k < |history| && history[k].Called? ==>
                IsFreshUnlessUnwritten(world, FilesOf(world, history[..k]), history[k].call, results[k])
    {
      hide ValidInputs, ValidWorld, IsHonestFile, IsFreshUnlessUnwritten, FilesAfter;
      results := [];
      assert history[..|history|] == history;
      for k := 0 to |history|
        invariant IsTrusted() && |results| == k && files == FilesOf(world, history[..k])
        invariant forall j :: 0 <= j < k && history[j].Called? ==>
                    IsFreshUnlessUnwritten(world, FilesOf(world, history[..j]), history[j].call, results[j])
      {
        assert history[..k + 1][..k] == history[..k];
        var result := Err(Inconsistent);
        match history[k] {
          case Called(call) => result := LoadOrBuildTeacher(call);
          case Happened(event) => Disturb(event);
        }
        results := results + [result];
      }
    }
  }

  /** A file deleted, made unreadable, or copied over another, whatever that other one's name says. */
  datatype Disturbance = Deleted(path: Path) | Damaged(path: Path) | CopiedOver(from: Path, to: Path)

  datatype Event = Called(call: Call) | Happened(event: Disturbance)

  function Disturbed(files: Files, event: Disturbance): Files {
    match event
    case Deleted(path) => files - {path}
    case Damaged(path) => files[path := Unreadable]
    case CopiedOver(from, to) => if from in files then files[to := files[from]] else files
  }

  /** The directory after this history, from an empty one. */
  ghost function FilesOf(world: World, history: seq<Event>): Files
    requires ValidWorld(world)
    requires forall k :: 0 <= k < |history| && history[k].Called? ==> ValidInputs(world, history[k].call.inputs)
  {
    if history == [] then map[]
    else
      var before := FilesOf(world, history[..|history| - 1]);
      match history[|history| - 1]
      case Called(call) => FilesAfter(world, before, call)
      case Happened(event) => Disturbed(before, event)
  }

  lemma HonestTable(world: World, files: Files, path: Path, inputs: TeacherInputs, settings: Settings)
    requires ValidWorld(world) && ValidInputs(world, inputs) && IsHonest(world, files)
    requires CachedTable(files, path, StampFor(world, inputs, settings)).Some?
    ensures BuiltTable(world, inputs, settings) == Ok(CachedTable(files, path, StampFor(world, inputs, settings)).value)
  {
    hide ValidInputs, BuiltTable, StampFor;
    assert IsHonestFile(world, files[path]);
    assert IsStampOf(world, inputs, settings, files[path].table.stamp);
  }

  lemma HonestNeighbours(world: World, files: Files, path: Path, inputs: TeacherInputs, settings: Settings)
    requires ValidWorld(world) && ValidInputs(world, inputs) && IsHonest(world, files)
    requires path in files && files[path].NeighboursFile?
    requires files[path].neighbours.stamp == StampFor(world, inputs, settings)
    ensures BuiltTable(world, inputs, settings).Ok?
    ensures var n := files[path].neighbours; n == Found(world, BuiltTable(world, inputs, settings).value, n.rule)
  {
    hide ValidInputs, BuiltTable, StampFor, Found;
    assert IsHonestFile(world, files[path]);
    assert IsStampOf(world, inputs, settings, files[path].neighbours.stamp);
  }

  lemma FoundForItsTable(world: World, inputs: TeacherInputs, settings: Settings)
    requires ValidWorld(world) && ValidInputs(world, inputs) && BuiltTable(world, inputs, settings).Ok?
    ensures var table := BuiltTable(world, inputs, settings).value;
            var found := Found(world, table, settings.neighbours);
            table.stamp == StampFor(world, inputs, settings) == found.stamp && RowCount(found) == |table.cardUuids|
  {
    hide ValidInputs, Count, StampFor;
  }

  lemma HoldoutIsValid(world: World, inputs: TeacherInputs)
    requires ValidInputs(world, inputs)
    ensures Holdout.Valid(inputs.holdout)
  {
  }

  lemma UnreadableIsHonest(world: World)
    requires ValidWorld(world)
    ensures IsHonestFile(world, Unreadable)
  {
  }
}
