/**
 The durable state document and how it is read back: which bytes decode to a state, and how a
 load chooses between the primary file and its rollback copy. JSON itself is a parameter.
 */
module StateDocument {
  import opened Basics

  const CURRENT_VERSION := 1

  /** The persisted part of an alarm cache. `None` is an absent or null JSON member. */
  datatype SavedAlarms = SavedAlarms(
    sentPd: Option<Times>,
    sentTg: Option<Times>,
    sentDi: Option<Times>,
    sentSlk: Option<Times>,
    all: Option<map<string, Times>>)

  datatype SavedState = SavedState(
    alarms: Option<SavedAlarms>,
    blocks: Option<map<string, seq<int>>>,
    nodesDown: Option<map<string, Times>>)
  {
    /** At least one durable field is present, so that a written document is accepted again. */
    predicate Acceptable() {
      alarms.Some? || blocks.Some? || nodesDown.Some?
    }
  }

  const EMPTY_STATE := SavedState(None, None, None)

  datatype Document = Document(version: int, state: SavedState)

  /** What a JSON decoder makes of a whole file. */
  datatype Parsed = Blank | Malformed | Null | Trailing | One(document: Document)

  datatype Codec = Codec(encode: Document -> Bytes, parse: Bytes -> Parsed)
  {
    ghost predicate Lawful() {
      forall d: Document :: parse(encode(d)) == One(d)
    }

    /** The bytes a checkpoint of `state` installs. */
    function Encoded(state: SavedState): Bytes {
      encode(Document(CURRENT_VERSION, state))
    }
  }

  datatype Decoded = Accepted(state: SavedState, version: int) | Refused

  function Decode(codec: Codec, data: Bytes): Decoded {
    match codec.parse(data)
    case Blank | Malformed | Null | Trailing => Refused
    case One(d) =>
      if d.version < 0 || d.version > CURRENT_VERSION then Refused
      else if !d.state.Acceptable() then Refused
      else Accepted(d.state, d.version)
  }

  predicate Decodable(codec: Codec, data: Bytes) {
    Decode(codec, data).Accepted?
  }

  /** A document written by a checkpoint is accepted again exactly when it holds some durable field. */
  lemma EncodedDecodes(codec: Codec, state: SavedState)
    requires codec.Lawful()
    ensures Decodable(codec, codec.Encoded(state)) <==> state.Acceptable()
    ensures state.Acceptable() ==> Decode(codec, codec.Encoded(state)) == Accepted(state, CURRENT_VERSION)
  {
    assert codec.parse(codec.encode(Document(CURRENT_VERSION, state))) == One(Document(CURRENT_VERSION, state));
  }

  datatype ReadResult = Data(bytes: Bytes) | NotExist | ReadError

  datatype Source = FromPrimary | FromBackup | FromNothing

  datatype LoadError = PrimaryBad | BackupBad | BothBad

  datatype LoadResult =
    | Loaded(state: SavedState, source: Source, version: int, legacy: bool)
    | Failed(error: LoadError)

  predicate Readable(codec: Codec, r: ReadResult) {
    r.Data? && Decodable(codec, r.bytes)
  }

  /** A load starts empty only when there is no file at all; otherwise what cannot be read is an error. */
  function Load(codec: Codec, primary: ReadResult, backup: ReadResult): (r: LoadResult)
    ensures r.Loaded? && r.source.FromNothing? <==> primary.NotExist? && backup.NotExist?
    ensures r.Loaded? && !r.source.FromNothing? <==> Readable(codec, primary) || Readable(codec, backup)
  {
    if Readable(codec, primary) then
      var d := Decode(codec, primary.bytes);
      Loaded(d.state, FromPrimary, d.version, d.version == 0)
    else if Readable(codec, backup) then
      var d := Decode(codec, backup.bytes);
      Loaded(d.state, FromBackup, d.version, d.version == 0)
    else if primary.NotExist? && backup.NotExist? then
      Loaded(EMPTY_STATE, FromNothing, 0, false)
    else if primary.NotExist? then Failed(BackupBad)
    else if backup.NotExist? then Failed(PrimaryBad)
    else Failed(BothBad)
  }

  /**
   The file gives the document: one JSON value, of version 0 (written before versions) or 1, with
   at least one of its three durable members.
   */
  ghost predicate Holds(codec: Codec, r: ReadResult, d: Document) {
    && r.Data? && codec.parse(r.bytes) == One(d)
    && 0 <= d.version <= 1
    && (d.state.alarms != None || d.state.blocks != None || d.state.nodesDown != None)
  }

  lemma ReadableExactly(codec: Codec, r: ReadResult)
    ensures Readable(codec, r) <==> exists d :: Holds(codec, r, d)
    ensures forall d :: Holds(codec, r, d) ==> Decode(codec, r.bytes) == Accepted(d.state, d.version)
  {
    if Readable(codec, r) {
      assert Holds(codec, r, codec.parse(r.bytes).document);
    }
  }

  /**
   What a load gives, from what the files hold: the primary's document, marked as legacy when of
   version 0; else the backup's; else an empty state when neither file is there, and otherwise an
   error that names the file that is there and bad, or both.
   */
  lemma LoadExactly(codec: Codec, primary: ReadResult, backup: ReadResult)
    ensures forall d :: Holds(codec, primary, d) ==>
              Load(codec, primary, backup) == Loaded(d.state, FromPrimary, d.version, d.version == 0)
    ensures forall d :: Holds(codec, backup, d) && (forall p :: !Holds(codec, primary, p)) ==>
              Load(codec, primary, backup) == Loaded(d.state, FromBackup, d.version, d.version == 0)
    ensures (forall d :: !Holds(codec, primary, d) && !Holds(codec, backup, d)) ==>
              Load(codec, primary, backup) ==
              match (primary, backup)
              case (NotExist, NotExist) => Loaded(SavedState(None, None, None), FromNothing, 0, false)
              case (NotExist, _) => Failed(BackupBad)
              case (_, NotExist) => Failed(PrimaryBad)
              case _ => Failed(BothBad)
  {
    ReadableExactly(codec, primary);
    ReadableExactly(codec, backup);
  }
}
