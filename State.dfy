/**
 * The application state of `pocut/state.py`: the Work/Break phase flag and the
 * configuration map read from (and written back to) the TOML file, with its
 * duration and finish-sound accessors.
 *
 * The file itself is a field: `None` while it does not exist, `Some(c)` once
 * `c` has been saved to it. Reading and writing TOML text is not modelled.
 */
module State {
  import opened Outcomes

  /** A configuration value as the model distinguishes it: an integer or a string. */
  datatype Value = IntValue(n: int) | TextValue(s: string)

  /** A TOML table and a whole configuration (a map of tables). */
  type Table = map<string, Value>
  type Config = map<string, Table>

  const DurationsTable := "durations"
  const WorkKey := "work_duration"
  const BreakKey := "break_duration"
  const AudioTable := "audio"
  const FinishSoundKey := "finish_sound"

  /** Lines 33-35 and 98: the built-in defaults. */
  const DefaultWorkDuration := 1500
  const DefaultBreakDuration := 300
  const DefaultFinishSound := "sounds/default_sound.wav"

  /** The configuration `load_config` falls back on when the file is missing. */
  function DefaultConfig(): Config
  {
    map[DurationsTable := map[WorkKey := IntValue(DefaultWorkDuration),
                              BreakKey := IntValue(DefaultBreakDuration)]]
  }

  /** `config[table][key]`, or `None` where either subscript raises `KeyError`. */
  function Lookup(c: Config, table: string, key: string): Option<Value>
  {
    if table in c && key in c[table] then Some(c[table][key]) else None
  }

  /** `config[table][key] = v`, after creating `table` empty if it is missing. */
  function Store(c: Config, table: string, key: string, v: Value): (d: Config)
    ensures d.Keys == c.Keys + {table}
    ensures d[table].Keys == (if table in c then c[table].Keys else {}) + {key}
  {
    var t := if table in c then c[table] else map[];
    c[table := t[key := v]]
  }

  /** `config.get("audio", {}).get("finish_sound", "sounds/default_sound.wav")`. */
  function FinishSoundOf(c: Config): (v: Value)
    ensures Lookup(c, AudioTable, FinishSoundKey).Some? ==> v == Lookup(c, AudioTable, FinishSoundKey).value
    ensures Lookup(c, AudioTable, FinishSoundKey).None? ==> v == TextValue(DefaultFinishSound)
  {
    var audio := if AudioTable in c then c[AudioTable] else map[];
    if FinishSoundKey in audio then audio[FinishSoundKey] else TextValue(DefaultFinishSound)
  }

  /** The key of the phase's duration: `work_duration` for Work, `break_duration` for Break. */
  function DurationKey(isWork: bool): string
  {
    if isWork then WorkKey else BreakKey
  }

  /** The name `toggle_phase` returns for a phase. */
  function PhaseName(isWork: bool): (name: string)
    ensures name == "Work" <==> isWork
    ensures name == "Break" <==> !isWork
  {
    if isWork then "Work" else "Break"
  }

  /** After a store, the stored key reads back the stored value and every other key reads as before. */
  lemma StoreLookup(c: Config, table: string, key: string, v: Value, table': string, key': string)
    ensures Lookup(Store(c, table, key, v), table', key')
         == if table' == table && key' == key then Some(v) else Lookup(c, table', key')
  {
    if table' == table && table in c && key' != key {
      assert Store(c, table, key, v)[table] == c[table][key := v];
    }
  }

  /** The default configuration: work 1500 s, break 300 s, no audio table, so the default sound. */
  lemma DefaultValues()
    ensures Lookup(DefaultConfig(), DurationsTable, WorkKey) == Some(IntValue(1500))
    ensures Lookup(DefaultConfig(), DurationsTable, BreakKey) == Some(IntValue(300))
    ensures FinishSoundOf(DefaultConfig()) == TextValue("sounds/default_sound.wav")
  {
    assert AudioTable !in DefaultConfig();
  }

  /** Storing the finish sound makes it the finish sound and leaves every duration as it was. */
  lemma FinishSoundStore(c: Config, sound: string, key: string)
    ensures FinishSoundOf(Store(c, AudioTable, FinishSoundKey, TextValue(sound))) == TextValue(sound)
    ensures Lookup(Store(c, AudioTable, FinishSoundKey, TextValue(sound)), DurationsTable, key)
         == Lookup(c, DurationsTable, key)
  {
    StoreLookup(c, AudioTable, FinishSoundKey, TextValue(sound), AudioTable, FinishSoundKey);
    StoreLookup(c, AudioTable, FinishSoundKey, TextValue(sound), DurationsTable, key);
  }

  /** `AppState`: the loaded configuration, the file it is saved to, and the phase flag. */
  class AppState {
    var config: Config
    /** The configuration file's contents; `None` while there is no file. */
    var file: Option<Config>
    var isWorkPhase: bool
    var debugMode: bool

    /**
     * `__init__` / `load_config`: an existing file is loaded as it is; a
     * missing one is replaced by the defaults, which are saved to it. The
     * phase starts at Work.
     */
    constructor (file: Option<Config>, debugMode: bool)
      ensures config == (if file.Some? then file.value else DefaultConfig())
      ensures this.file == Some(config)
      ensures isWorkPhase && this.debugMode == debugMode
    {
      if file.Some? {
        config := file.value;
        this.file := file;
      } else {
        config := DefaultConfig();
        this.file := Some(DefaultConfig());
      }
      isWorkPhase := true;
      this.debugMode := debugMode;
    }

    /** The `work_duration` getter; `None` where it raises `KeyError`. */
    function WorkDuration(): Option<Value>
      reads this
    {
      Lookup(config, DurationsTable, WorkKey)
    }

    /** The `break_duration` getter; `None` where it raises `KeyError`. */
    function BreakDuration(): Option<Value>
      reads this
    {
      Lookup(config, DurationsTable, BreakKey)
    }

    /** The duration of the current phase, as `update_timer_for_current_phase` reads it. */
    function PhaseDuration(): Option<Value>
      reads this
    {
      Lookup(config, DurationsTable, DurationKey(isWorkPhase))
    }

    /** The `finish_sound` getter. */
    function FinishSound(): Value
      reads this
    {
      FinishSoundOf(config)
    }

    /**
     * The `work_duration` setter: without a `durations` table it raises
     * `KeyError` and changes nothing; otherwise it sets the one key and saves
     * the configuration. The getter then returns the new value and nothing
     * else reads differently.
     */
    method SetWorkDuration(value: int) returns (ok: bool)
      modifies this
      ensures ok <==> DurationsTable in old(config)
      ensures ok ==> && config == Store(old(config), DurationsTable, WorkKey, IntValue(value))
                     && file == Some(config)
                     && WorkDuration() == Some(IntValue(value))
                     && BreakDuration() == old(BreakDuration())
                     && FinishSound() == old(FinishSound())
      ensures !ok ==> config == old(config) && file == old(file)
      ensures isWorkPhase == old(isWorkPhase) && debugMode == old(debugMode)
    {
      if DurationsTable !in config {
        return false;
      }
      StoreLookup(config, DurationsTable, WorkKey, IntValue(value), DurationsTable, BreakKey);
      StoreLookup(config, DurationsTable, WorkKey, IntValue(value), AudioTable, FinishSoundKey);
      config := Store(config, DurationsTable, WorkKey, IntValue(value));
      file := Some(config);
      ok := true;
    }

    /** The `break_duration` setter, symmetric to `SetWorkDuration`. */
    method SetBreakDuration(value: int) returns (ok: bool)
      modifies this
      ensures ok <==> DurationsTable in old(config)
      ensures ok ==> && config == Store(old(config), DurationsTable, BreakKey, IntValue(value))
                     && file == Some(config)
                     && BreakDuration() == Some(IntValue(value))
                     && WorkDuration() == old(WorkDuration())
                     && FinishSound() == old(FinishSound())
      ensures !ok ==> config == old(config) && file == old(file)
      ensures isWorkPhase == old(isWorkPhase) && debugMode == old(debugMode)
    {
      if DurationsTable !in config {
        return false;
      }
      StoreLookup(config, DurationsTable, BreakKey, IntValue(value), DurationsTable, WorkKey);
      StoreLookup(config, DurationsTable, BreakKey, IntValue(value), AudioTable, FinishSoundKey);
      config := Store(config, DurationsTable, BreakKey, IntValue(value));
      file := Some(config);
      ok := true;
    }

    /**
     * `toggle_phase`: negates the flag and returns the name of the new phase,
     * so two toggles restore the phase; the configuration is untouched.
     */
    method TogglePhase() returns (phase: string)
      modifies this
      ensures isWorkPhase == !old(isWorkPhase)
      ensures phase == PhaseName(isWorkPhase)
      ensures config == old(config) && file == old(file) && debugMode == old(debugMode)
    {
      isWorkPhase := !isWorkPhase;
      phase := PhaseName(isWorkPhase);
    }

    /**
     * The `finish_sound` setter: creates the `audio` table when it is missing,
     * sets the sound and saves; the durations read as before.
     */
    method SetFinishSound(value: string)
      modifies this
      ensures config == Store(old(config), AudioTable, FinishSoundKey, TextValue(value))
      ensures file == Some(config)
      ensures FinishSound() == TextValue(value)
      ensures WorkDuration() == old(WorkDuration()) && BreakDuration() == old(BreakDuration())
      ensures isWorkPhase == old(isWorkPhase) && debugMode == old(debugMode)
    {
      FinishSoundStore(config, value, WorkKey);
      FinishSoundStore(config, value, BreakKey);
      config := Store(config, AudioTable, FinishSoundKey, TextValue(value));
      file := Some(config);
    }
  }
}
