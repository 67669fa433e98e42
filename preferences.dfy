/** The saved line selection (PreferenceManager.java): an in-memory
    selection, preferences that arrive later from a background load, the
    typed lookup used on them, and the write-back. The background thread is
    not modelled: the load is an event the caller sends. */
module Preferences {
  import opened JavaLang

  /** A stored preference value, by its Java type. Float preferences are
      not modelled. */
  datatype Value =
    | StringValue(s: string)
    | IntValue(i: int)
    | LongValue(l: int)
    | BoolValue(b: bool)
    | StringSetValue(strings: set<string>)

  /** The String.class instance test and cast. */
  function AsString(v: Value): (r: Option<string>)
    ensures r.Some? <==> v.StringValue?
    ensures r.Some? ==> v == StringValue(r.value)
  {
    if v.StringValue? then Some(v.s) else None
  }

  /** safeGet: the stored value when it is present and of the requested
      type, the default otherwise. `cast` is the type's instance test. */
  function SafeGet<T>(all: map<string, Value>, cast: Value -> Option<T>, name: string, default: T): T
  {
    if name !in all then default
    else match cast(all[name])
      case None => default
      case Some(t) => t
  }

  /** For strings: the stored string, or the default when the key is
      missing or holds another type. */
  lemma SafeGetString(all: map<string, Value>, name: string, default: string)
    ensures name in all && all[name].StringValue? ==> SafeGet(all, AsString, name, default) == all[name].s
    ensures !(name in all && all[name].StringValue?) ==> SafeGet(all, AsString, name, default) == default
  {
  }

  const LineKey: string := "line"

  /** The line read from loaded preferences. */
  function StoredLine(all: map<string, Value>): string
  {
    SafeGet(all, AsString, LineKey, "")
  }

  /** What loadPreferences leaves as the saved line. */
  function MergedLine(current: string, all: map<string, Value>): (r: string)
    ensures current != "" ==> r == current
    ensures current == "" ==> r == StoredLine(all)
  {
    if current == "" then StoredLine(all) else current
  }

  /** A line written back is the line read on the next load, whatever else
      the preferences hold. */
  lemma WrittenLineIsLoaded(all: map<string, Value>, line: string)
    ensures StoredLine(all[LineKey := StringValue(line)]) == line
    ensures MergedLine("", all[LineKey := StringValue(line)]) == line
  {
  }

  /** Loading the same preferences twice is loading them once. */
  lemma LoadIsIdempotent(current: string, all: map<string, Value>)
    ensures MergedLine(MergedLine(current, all), all) == MergedLine(current, all)
  {
  }

  class PreferenceManager {
    /** The selection in memory; "" until set or loaded. */
    var savedLine: string
    /** The preferences, once the background load has delivered them. */
    var prefs: Option<map<string, Value>>

    constructor ()
      ensures savedLine == "" && prefs == None
    {
      savedLine := "";
      prefs := None;
    }

    function GetSavedLine(): string
      reads this
    {
      savedLine
    }

    method SetSelectedLine(line: string)
      modifies this
      ensures GetSavedLine() == line && prefs == old(prefs)
    {
      savedLine := line;
    }

    /** loadPreferences: keeps the preferences, and takes their line only
        while nothing has been selected. */
    method LoadPreferences(all: map<string, Value>)
      modifies this
      ensures prefs == Some(all)
      ensures savedLine == MergedLine(old(savedLine), all)
    {
      prefs := Some(all);
      var lineSelected := SafeGet(all, AsString, LineKey, "");
      if "" == savedLine {
        savedLine := lineSelected;
      }
    }

    /** apply: without loaded preferences the change is dropped; otherwise
        the saved line is written under "line". */
    method Apply()
      modifies this
      ensures old(prefs).None? ==> prefs == None
      ensures old(prefs).Some? ==> prefs == Some(old(prefs).value[LineKey := StringValue(savedLine)])
      ensures savedLine == old(savedLine)
    {
      if prefs.None? {
        return;
      }
      prefs := Some(prefs.value[LineKey := StringValue(GetSavedLine())]);
    }
  }
}
