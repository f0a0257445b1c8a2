/** The watering configuration: the eight fields of the `WateringConfig`
    struct, the JSON document they are stored in and exchanged as, the fixed
    defaults of `saveDefaultConfig`, the per-field fallback of `loadConfig`
    and the conversion the POST handler applies.

    JSON text is not parsed here: a document is given as the record of the
    eight values the library finds at the paths the code reads, each `None`
    when the path is absent or holds a value of another type. */
module Config {

  datatype Option<T> = None | Some(value: T)

  datatype WateringConfig = WateringConfig(
    morningTime: string,
    eveningTime: string,
    morningValve1: nat,
    morningValve2: nat,
    eveningValve1: nat,
    eveningValve2: nat,
    manualUpperDuration: nat,
    manualLowerDuration: nat)

  /** The values at "morning_time", "evening_time",
      "morning_durations"/"valve1", …, "manual_durations"/"lower". */
  datatype ConfigDoc = ConfigDoc(
    morningTime: Option<string>,
    eveningTime: Option<string>,
    morningValve1: Option<nat>,
    morningValve2: Option<nat>,
    eveningValve1: Option<nat>,
    eveningValve2: Option<nat>,
    manualUpper: Option<nat>,
    manualLower: Option<nat>)

  /** What `/config.json` holds when the controller boots. */
  datatype StoredConfig =
    | Missing               // the file does not exist or cannot be opened
    | Corrupt               // deserialisation reports an error
    | Present(doc: ConfigDoc)

  const DefaultMorning := "07:00"
  const DefaultEvening := "18:00"
  const DefaultSeconds := 60

  /** `saveDefaultConfig`'s values. */
  function Defaults(): (c: WateringConfig)
    ensures c.morningTime == DefaultMorning && c.eveningTime == DefaultEvening
    ensures c.morningValve1 == c.morningValve2 == c.eveningValve1 == c.eveningValve2 == DefaultSeconds
    ensures c.manualUpperDuration == c.manualLowerDuration == DefaultSeconds
  {
    WateringConfig(DefaultMorning, DefaultEvening, 60, 60, 60, 60, 60, 60)
  }

  /** The document `saveDefaultConfig` and `GET /api/config` build from a
      configuration: every field present. */
  function Encode(c: WateringConfig): (d: ConfigDoc)
    ensures Complete(d)
  {
    ConfigDoc(Some(c.morningTime), Some(c.eveningTime),
              Some(c.morningValve1), Some(c.morningValve2),
              Some(c.eveningValve1), Some(c.eveningValve2),
              Some(c.manualUpperDuration), Some(c.manualLowerDuration))
  }

  predicate Complete(d: ConfigDoc) {
    d.morningTime.Some? && d.eveningTime.Some?
    && d.morningValve1.Some? && d.morningValve2.Some?
    && d.eveningValve1.Some? && d.eveningValve2.Some?
    && d.manualUpper.Some? && d.manualLower.Some?
  }

  /** ArduinoJson's `variant | fallback`. */
  function Or<T>(o: Option<T>, fallback: T): T {
    match o
    case Some(v) => v
    case None => fallback
  }

  /** `loadConfig`: no configuration when the file is missing or corrupt;
      otherwise each field is taken from the document, and a field the
      document lacks gets its own default, independently of the others. */
  function LoadConfig(f: StoredConfig): (r: Option<WateringConfig>)
    ensures r.Some? <==> f.Present?
    ensures r.Some? ==> FieldwiseFallback(f.doc, r.value)
  {
    match f
    case Missing => None
    case Corrupt => None
    case Present(d) =>
      Some(WateringConfig(
        Or(d.morningTime, DefaultMorning), Or(d.eveningTime, DefaultEvening),
        Or(d.morningValve1, 60), Or(d.morningValve2, 60),
        Or(d.eveningValve1, 60), Or(d.eveningValve2, 60),
        Or(d.manualUpper, 60), Or(d.manualLower, 60)))
  }

  /** Field by field: a present value is kept, a missing one is the default. */
  ghost predicate FieldwiseFallback(d: ConfigDoc, c: WateringConfig) {
    var def := Defaults();
    && (if d.morningTime.Some? then c.morningTime == d.morningTime.value else c.morningTime == def.morningTime)
    && (if d.eveningTime.Some? then c.eveningTime == d.eveningTime.value else c.eveningTime == def.eveningTime)
    && (if d.morningValve1.Some? then c.morningValve1 == d.morningValve1.value else c.morningValve1 == def.morningValve1)
    && (if d.morningValve2.Some? then c.morningValve2 == d.morningValve2.value else c.morningValve2 == def.morningValve2)
    && (if d.eveningValve1.Some? then c.eveningValve1 == d.eveningValve1.value else c.eveningValve1 == def.eveningValve1)
    && (if d.eveningValve2.Some? then c.eveningValve2 == d.eveningValve2.value else c.eveningValve2 == def.eveningValve2)
    && (if d.manualUpper.Some? then c.manualUpperDuration == d.manualUpper.value else c.manualUpperDuration == def.manualUpperDuration)
    && (if d.manualLower.Some? then c.manualLowerDuration == d.manualLower.value else c.manualLowerDuration == def.manualLowerDuration)
  }

  /** What ArduinoJson's `as<String>()` yields for a missing value: the
      null variant serialised. */
  const MissingString := "null"

  /** The POST `/api/config` handler's assignments: every field is
      overwritten, a missing duration with 0 and a missing time with "null";
      no field keeps its previous value and nothing is rejected. */
  function FromPost(d: ConfigDoc): (c: WateringConfig)
    ensures d.morningTime.Some? ==> c.morningTime == d.morningTime.value
    ensures d.morningTime.None? ==> c.morningTime == MissingString
    ensures d.eveningTime.Some? ==> c.eveningTime == d.eveningTime.value
    ensures d.eveningTime.None? ==> c.eveningTime == MissingString
    ensures c.morningValve1 == Or(d.morningValve1, 0) && c.morningValve2 == Or(d.morningValve2, 0)
    ensures c.eveningValve1 == Or(d.eveningValve1, 0) && c.eveningValve2 == Or(d.eveningValve2, 0)
    ensures c.manualUpperDuration == Or(d.manualUpper, 0) && c.manualLowerDuration == Or(d.manualLower, 0)
  {
    WateringConfig(
      Or(d.morningTime, MissingString), Or(d.eveningTime, MissingString),
      Or(d.morningValve1, 0), Or(d.morningValve2, 0),
      Or(d.eveningValve1, 0), Or(d.eveningValve2, 0),
      Or(d.manualUpper, 0), Or(d.manualLower, 0))
  }

  /** A configuration written out in full is read back unchanged at boot. */
  lemma LoadEncoded(c: WateringConfig)
    ensures LoadConfig(Present(Encode(c))) == Some(c)
  {
  }

  /** The defaults written by `saveDefaultConfig` load back as the defaults,
      and so does a document with no usable field at all. */
  lemma LoadDefaults()
    ensures LoadConfig(Present(Encode(Defaults()))) == Some(Defaults())
    ensures LoadConfig(Present(ConfigDoc(None, None, None, None, None, None, None, None))) == Some(Defaults())
  {
  }

  /** Posting back what `GET /api/config` returned reproduces the configuration. */
  lemma PostEncoded(c: WateringConfig)
    ensures FromPost(Encode(c)) == c
  {
  }

  /** The POST handler stores the document it received; when that document
      is complete, the configuration loaded from it after a restart is the one
      the handler put in memory. */
  lemma PostThenRestart(d: ConfigDoc)
    requires Complete(d)
    ensures LoadConfig(Present(d)) == Some(FromPost(d))
  {
  }

  /** When the posted document lacks a field, memory and storage disagree:
      the handler sets 0 (or "null") while a restart loads the default. */
  lemma PostThenRestartDiverges(d: ConfigDoc)
    requires d.morningValve1.None?
    ensures FromPost(d).morningValve1 == 0
    ensures LoadConfig(Present(d)).value.morningValve1 == DefaultSeconds
    ensures LoadConfig(Present(d)) != Some(FromPost(d))
  {
  }
}
