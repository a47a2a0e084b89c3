/** The mod's settings file `config/minecraftdclink.properties`. Loading reads each of the
    seven keys, keeps the current value of a key that is absent (and, for the four integer
    keys, one that is blank or not an `int`), and writes every resolved value back. The
    properties file is a map from key to value; its text syntax is not modelled. */
module Config {
  import opened Wrappers
  import opened Numerals
  import opened JavaLang

  const KEY_BASE_URL: string := "api.baseUrl"
  const KEY_API_KEY: string := "api.key"
  const KEY_TIMEOUT: string := "api.timeoutSeconds"
  const KEY_CHECK: string := "behavior.checkIntervalSeconds"
  const KEY_MESSAGE: string := "behavior.messageIntervalSeconds"
  const KEY_STATUS: string := "behavior.statusIntervalSeconds"
  const KEY_INSTRUCTION: string := "behavior.instructionMessage"

  const KEYS: set<string> :=
    {KEY_BASE_URL, KEY_API_KEY, KEY_TIMEOUT, KEY_CHECK, KEY_MESSAGE, KEY_STATUS, KEY_INSTRUCTION}

  type Properties = map<string, string>

  datatype Settings = Settings(
    apiBaseUrl: string,
    apiKey: string,
    apiTimeoutSeconds: Int32,
    checkIntervalSeconds: Int32,
    messageIntervalSeconds: Int32,
    statusIntervalSeconds: Int32,
    instructionMessage: string)

  const DEFAULTS: Settings := Settings(
    "https://mc-auth.marsphobos.com", "", 5, 10, 30, 30,
    "Please register your account in the #auth channel of the Discord server.")

  /** `getProperty(key)`: the value, or `None` for the Java `null`. */
  function Lookup(p: Properties, key: string): Option<string> {
    if key in p then Some(p[key]) else None
  }

  /** `parseInt(value, fallback)`: the trimmed value as an `int`, or the fallback. */
  function ParseIntOr(value: Option<string>, fallback: Int32): (r: Int32)
    ensures value.None? || IsBlank(value.value) ==> r == fallback
    ensures value.Some? && ParseInt(Trim(value.value)).None? ==> r == fallback
    ensures value.Some? && !IsBlank(value.value) && ParseInt(Trim(value.value)).Some? ==>
      r == ParseInt(Trim(value.value)).value
    ensures r != fallback ==> value.Some? && ParseInt(Trim(value.value)) == Some(r)
  {
    if value.None? || IsBlank(value.value) then fallback
    else ParseInt(Trim(value.value)).GetOr(fallback)
  }

  /** What `Integer.toString` writes, `parseInt` reads back, whatever the fallback. */
  lemma ParseIntOrToString(v: Int32, fallback: Int32)
    ensures ParseIntOr(Some(IntToString(v)), fallback) == v
  {
    var s := IntToString(v);
    if v >= 0 {
      assert IsDigit(s[0]) && IsDigit(s[|s| - 1]);
    } else {
      assert s[|s| - 1] == s[1..][|s| - 2];
      assert IsDigit(s[|s| - 1]);
    }
    assert !IsJavaWhitespace(s[0]);
    assert Trim(s) == s;
    ParseIntToString(v);
  }

  /** The `int` a present, non-blank value of `key` holds once trimmed, if any. */
  function Parsed(p: Properties, key: string): Option<Int32> {
    if key in p && !IsBlank(p[key]) then ParseInt(Trim(p[key])) else None
  }

  /** The settings after loading `p` over `cur`: a string key's value replaces the setting;
      an integer key's value replaces it only when it holds an `int`. */
  function Resolve(cur: Settings, p: Properties): (r: Settings)
    ensures r.apiBaseUrl == (if KEY_BASE_URL in p then p[KEY_BASE_URL] else cur.apiBaseUrl)
    ensures r.apiKey == (if KEY_API_KEY in p then p[KEY_API_KEY] else cur.apiKey)
    ensures r.instructionMessage == (if KEY_INSTRUCTION in p then p[KEY_INSTRUCTION] else cur.instructionMessage)
    ensures r.apiTimeoutSeconds == (if Parsed(p, KEY_TIMEOUT).Some? then Parsed(p, KEY_TIMEOUT).value else cur.apiTimeoutSeconds)
    ensures r.checkIntervalSeconds == (if Parsed(p, KEY_CHECK).Some? then Parsed(p, KEY_CHECK).value else cur.checkIntervalSeconds)
    ensures r.messageIntervalSeconds == (if Parsed(p, KEY_MESSAGE).Some? then Parsed(p, KEY_MESSAGE).value else cur.messageIntervalSeconds)
    ensures r.statusIntervalSeconds == (if Parsed(p, KEY_STATUS).Some? then Parsed(p, KEY_STATUS).value else cur.statusIntervalSeconds)
  {
    Settings(
      Lookup(p, KEY_BASE_URL).GetOr(cur.apiBaseUrl),
      Lookup(p, KEY_API_KEY).GetOr(cur.apiKey),
      ParseIntOr(Lookup(p, KEY_TIMEOUT), cur.apiTimeoutSeconds),
      ParseIntOr(Lookup(p, KEY_CHECK), cur.checkIntervalSeconds),
      ParseIntOr(Lookup(p, KEY_MESSAGE), cur.messageIntervalSeconds),
      ParseIntOr(Lookup(p, KEY_STATUS), cur.statusIntervalSeconds),
      Lookup(p, KEY_INSTRUCTION).GetOr(cur.instructionMessage))
  }

  /** The seven `setProperty` calls: every key gets its resolved value, other keys stay. */
  function WriteBack(p: Properties, s: Settings): (w: Properties)
    ensures w.Keys == p.Keys + KEYS
    ensures forall k | k in p && k !in KEYS :: w[k] == p[k]
    ensures w[KEY_BASE_URL] == s.apiBaseUrl && w[KEY_API_KEY] == s.apiKey
    ensures w[KEY_TIMEOUT] == IntToString(s.apiTimeoutSeconds)
    ensures w[KEY_CHECK] == IntToString(s.checkIntervalSeconds)
    ensures w[KEY_MESSAGE] == IntToString(s.messageIntervalSeconds)
    ensures w[KEY_STATUS] == IntToString(s.statusIntervalSeconds)
    ensures w[KEY_INSTRUCTION] == s.instructionMessage
  {
    p[KEY_BASE_URL := s.apiBaseUrl]
     [KEY_API_KEY := s.apiKey]
     [KEY_TIMEOUT := IntToString(s.apiTimeoutSeconds)]
     [KEY_CHECK := IntToString(s.checkIntervalSeconds)]
     [KEY_MESSAGE := IntToString(s.messageIntervalSeconds)]
     [KEY_STATUS := IntToString(s.statusIntervalSeconds)]
     [KEY_INSTRUCTION := s.instructionMessage]
  }

  /** Loading a written-back file gives exactly the settings that were written, whatever the
      settings were before. */
  lemma ResolveWritten(cur: Settings, p: Properties, s: Settings)
    ensures Resolve(cur, WriteBack(p, s)) == s
  {
    ParseIntOrToString(s.apiTimeoutSeconds, cur.apiTimeoutSeconds);
    ParseIntOrToString(s.checkIntervalSeconds, cur.checkIntervalSeconds);
    ParseIntOrToString(s.messageIntervalSeconds, cur.messageIntervalSeconds);
    ParseIntOrToString(s.statusIntervalSeconds, cur.statusIntervalSeconds);
  }

  /** Writing the same settings back twice gives the same file. */
  lemma WriteBackTwice(p: Properties, s: Settings)
    ensures WriteBack(WriteBack(p, s), s) == WriteBack(p, s)
  {
    var w := WriteBack(p, s);
    SetSame(w, KEY_BASE_URL, s.apiBaseUrl);
    SetSame(w, KEY_API_KEY, s.apiKey);
    SetSame(w, KEY_TIMEOUT, IntToString(s.apiTimeoutSeconds));
    SetSame(w, KEY_CHECK, IntToString(s.checkIntervalSeconds));
    SetSame(w, KEY_MESSAGE, IntToString(s.messageIntervalSeconds));
    SetSame(w, KEY_STATUS, IntToString(s.statusIntervalSeconds));
    SetSame(w, KEY_INSTRUCTION, s.instructionMessage);
  }

  /** Setting a key to the value it already has changes nothing. */
  lemma SetSame(m: Properties, k: string, v: string)
    requires k in m && m[k] == v
    ensures m[k := v] == m
  {
  }

  /** A second load of the written file changes neither the settings nor the file. */
  lemma LoadIdempotent(cur: Settings, p: Properties)
    ensures var s := Resolve(cur, p);
      Resolve(s, WriteBack(p, s)) == s && WriteBack(WriteBack(p, s), s) == WriteBack(p, s)
  {
    var s := Resolve(cur, p);
    ResolveWritten(s, p, s);
    WriteBackTwice(p, s);
  }

  /** With no file, the settings stay as they are. */
  lemma ResolveEmpty(cur: Settings)
    ensures Resolve(cur, map[]) == cur
  {
  }

  /** The state of the settings file on disk when `load` runs. `Malformed` is a file that
      `Properties.load` rejects with an `IllegalArgumentException`: a `\u` escape that is not
      followed by four hex digits. */
  datatype ConfigFile = Missing | Unreadable | Malformed | Present(props: Properties)

  /** The seven static settings, updated in place by `load`. */
  class FileConfig {
    var apiBaseUrl: string
    var apiKey: string
    var apiTimeoutSeconds: Int32
    var checkIntervalSeconds: Int32
    var messageIntervalSeconds: Int32
    var statusIntervalSeconds: Int32
    var instructionMessage: string

    function Current(): Settings
      reads this
    {
      Settings(apiBaseUrl, apiKey, apiTimeoutSeconds, checkIntervalSeconds, messageIntervalSeconds,
               statusIntervalSeconds, instructionMessage)
    }

    constructor ()
      ensures Current() == DEFAULTS
    {
      apiBaseUrl := DEFAULTS.apiBaseUrl;
      apiKey := DEFAULTS.apiKey;
      apiTimeoutSeconds := DEFAULTS.apiTimeoutSeconds;
      checkIntervalSeconds := DEFAULTS.checkIntervalSeconds;
      messageIntervalSeconds := DEFAULTS.messageIntervalSeconds;
      statusIntervalSeconds := DEFAULTS.statusIntervalSeconds;
      instructionMessage := DEFAULTS.instructionMessage;
    }

    /** `load`: `dirCreated` says whether the config directory could be created and `writable`
        whether the file could be written. An `IOException` before the settings are read leaves
        them as they are; one while storing leaves them updated but the file unwritten. Gives the
        properties stored, if any, and whether an exception escaped: only `IOException` is
        caught, so a malformed file throws out of `load` with the settings untouched. */
    method Load(dirCreated: bool, file: ConfigFile, writable: bool) returns (stored: Option<Properties>, threw: bool)
      modifies this
      ensures threw <==> dirCreated && file.Malformed?
      ensures !dirCreated || file.Unreadable? || file.Malformed? ==> Current() == old(Current()) && stored == None
      ensures dirCreated && (file.Missing? || file.Present?) ==>
        var p := if file.Present? then file.props else map[];
        Current() == Resolve(old(Current()), p) &&
        stored == (if writable then Some(WriteBack(p, Current())) else None)
    {
      if !dirCreated || file.Unreadable? {
        return None, false;
      }
      if file.Malformed? {
        return None, true;
      }
      var properties: Properties := if file.Present? then file.props else map[];
      apiBaseUrl := Lookup(properties, KEY_BASE_URL).GetOr(apiBaseUrl);
      apiKey := Lookup(properties, KEY_API_KEY).GetOr(apiKey);
      apiTimeoutSeconds := ParseIntOr(Lookup(properties, KEY_TIMEOUT), apiTimeoutSeconds);
      checkIntervalSeconds := ParseIntOr(Lookup(properties, KEY_CHECK), checkIntervalSeconds);
      messageIntervalSeconds := ParseIntOr(Lookup(properties, KEY_MESSAGE), messageIntervalSeconds);
      statusIntervalSeconds := ParseIntOr(Lookup(properties, KEY_STATUS), statusIntervalSeconds);
      instructionMessage := Lookup(properties, KEY_INSTRUCTION).GetOr(instructionMessage);
      assert Current() == Resolve(old(Current()), properties);
      ghost var written := WriteBack(properties, Current());

      properties := properties[KEY_BASE_URL := apiBaseUrl];
      properties := properties[KEY_API_KEY := apiKey];
      properties := properties[KEY_TIMEOUT := IntToString(apiTimeoutSeconds)];
      properties := properties[KEY_CHECK := IntToString(checkIntervalSeconds)];
      properties := properties[KEY_MESSAGE := IntToString(messageIntervalSeconds)];
      properties := properties[KEY_STATUS := IntToString(statusIntervalSeconds)];
      properties := properties[KEY_INSTRUCTION := instructionMessage];
      assert properties == written;
      stored := if writable then Some(properties) else None;
      threw := false;
    }
  }
}
