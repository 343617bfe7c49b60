/**
 * The name policy of tracker.py's `get_foreground_app`. The win32 and psutil
 * calls it makes are not modelled; their results, or their failure, are the
 * fields of a `Probe`.
 */
module Foreground {
  import opened Wrappers

  /** The result of one OS call: a value, or an exception. */
  datatype Lookup<T> = Found(value: T) | Failed

  /** A 16-bit number, as in a VS_VERSIONINFO translation entry. */
  type Word = x: int | 0 <= x < 0x10000

  /** One entry of `\VarFileInfo\Translation`: a language id and a code page. */
  datatype Translation = Translation(language: Word, codepage: Word)

  /** What the OS answers, call by call, while `get_foreground_app` runs. */
  datatype Probe = Probe(
    /** `win32gui.GetForegroundWindow()`; 0 when no window has the focus. */
    window: int,
    /** `win32process.GetWindowThreadProcessId(hwnd)`: the owning process id. */
    owner: Lookup<int>,
    /** `psutil.Process(pid).exe()`; Failed covers both calls raising (process gone, access denied). */
    exePath: Lookup<string>,
    /** `win32api.GetFileVersionInfo(exe_path, '\\VarFileInfo\\Translation')`. */
    translations: Lookup<seq<Translation>>,
    /** The version strings `GetFileVersionInfo(exe_path, key)` answers; a key not in the map raises. */
    versionStrings: map<string, string>,
    /** `process.name()`. */
    processName: Lookup<string>)

  function HexDigit(d: int): (c: char)
    requires 0 <= d < 16
    ensures c in "0123456789abcdef"
  {
    "0123456789abcdef"[d]
  }

  /** `'%04x' % n` for a 16-bit n: four lower-case hex digits. */
  function Hex4(n: Word): (s: string)
    ensures |s| == 4
  {
    [HexDigit(n / 16 / 16 / 16), HexDigit(n / 16 / 16 % 16), HexDigit(n / 16 % 16), HexDigit(n % 16)]
  }

  function HexDigitValue(c: char): (d: int)
    requires c in "0123456789abcdef"
    ensures 0 <= d < 16
  {
    if '0' <= c <= '9' then c as int - '0' as int else c as int - 'a' as int + 10
  }

  lemma HexDigitRoundTrip(d: int)
    requires 0 <= d < 16
    ensures HexDigitValue(HexDigit(d)) == d
  {
  }

  /** The inverse of `Hex4`: the number a four-digit lower-case hex string denotes. */
  function HexValue(s: string): (n: int)
    requires |s| == 4 && forall i :: 0 <= i < 4 ==> s[i] in "0123456789abcdef"
    ensures 0 <= n < 0x10000
  {
    ((HexDigitValue(s[0]) * 16 + HexDigitValue(s[1])) * 16 + HexDigitValue(s[2])) * 16 + HexDigitValue(s[3])
  }

  /** `HexValue` reads `'%04x'` back: the four digits determine the word. */
  lemma Hex4RoundTrip(n: Word)
    ensures HexValue(Hex4(n)) == n
  {
    var q1 := n / 16;
    var q2 := q1 / 16;
    var q3 := q2 / 16;
    assert q3 < 16;
    HexDigitRoundTrip(q3);
    HexDigitRoundTrip(q2 % 16);
    HexDigitRoundTrip(q1 % 16);
    HexDigitRoundTrip(n % 16);
    assert q2 == q3 * 16 + q2 % 16;
    assert q1 == q2 * 16 + q1 % 16;
    assert n == q1 * 16 + n % 16;
  }

  /** The version-string key for a translation entry: `StringFileInfo\<lang><codepage>\FileDescription`. */
  function DescriptionKey(t: Translation): (key: string)
    ensures |key| == 39
  {
    "StringFileInfo\\" + Hex4(t.language) + Hex4(t.codepage) + "\\FileDescription"
  }

  /** The two four-character codes between the fixed parts of a key are read back from the key. */
  lemma KeyParts(a: string, b: string, c: string, d: string)
    requires |a| == |b| == |c| == |d| == 4
    requires "StringFileInfo\\" + a + b + "\\FileDescription" == "StringFileInfo\\" + c + d + "\\FileDescription"
    ensures a == c && b == d
  {
    var k1 := "StringFileInfo\\" + a + b + "\\FileDescription";
    var k2 := "StringFileInfo\\" + c + d + "\\FileDescription";
    assert k1[15..19] == a && k2[15..19] == c;
    assert k1[19..23] == b && k2[19..23] == d;
  }

  /** Distinct translation entries name distinct string tables. */
  lemma DescriptionKeyInjective(t1: Translation, t2: Translation)
    ensures DescriptionKey(t1) == DescriptionKey(t2) <==> t1 == t2
  {
    if DescriptionKey(t1) == DescriptionKey(t2) {
      KeyParts(Hex4(t1.language), Hex4(t1.codepage), Hex4(t2.language), Hex4(t2.codepage));
      Hex4RoundTrip(t1.language);
      Hex4RoundTrip(t2.language);
      Hex4RoundTrip(t1.codepage);
      Hex4RoundTrip(t2.codepage);
    }
  }

  /**
   * The inner `try` of `get_foreground_app`: the FileDescription of the first
   * translation entry. Failed when reading the translations raises, when there
   * is no entry (`langs[0]` raises IndexError), or when the key is missing.
   */
  function FileDescription(p: Probe): (r: Lookup<string>)
    ensures r.Found? <==> p.translations.Found? && p.translations.value != []
                          && DescriptionKey(p.translations.value[0]) in p.versionStrings
    ensures r.Found? ==> r.value == p.versionStrings[DescriptionKey(p.translations.value[0])]
  {
    match p.translations
    case Failed => Failed
    case Found(langs) =>
      if langs == [] then Failed
      else
        var key := DescriptionKey(langs[0]);
        if key in p.versionStrings then Found(p.versionStrings[key]) else Failed
  }

  /**
   * `get_foreground_app`: None when there is no foreground window or when
   * resolving its process fails; otherwise the file description, falling back
   * to the process name; None when that raises too.
   */
  function ForegroundApp(p: Probe): (name: Option<string>)
    ensures p.window == 0 || p.owner.Failed? || p.exePath.Failed? ==> name == None
    ensures p.window != 0 && p.owner.Found? && p.exePath.Found? ==>
              match FileDescription(p)
              case Found(description) => name == Some(description)
              case Failed => name == (if p.processName.Found? then Some(p.processName.value) else None)
  {
    if p.window == 0 then None
    else match p.owner
      case Failed => None
      case Found(_) =>
        match p.exePath
        case Failed => None
        case Found(_) =>
          match FileDescription(p)
          case Found(description) => Some(description)
          case Failed =>
            match p.processName
            case Found(n) => Some(n)
            case Failed => None
  }

  /**
   * The whole policy at once: an app name is reported exactly when the window,
   * its process and its executable resolve and either the file description or
   * the process name can be read; the description wins when both can.
   */
  lemma ForegroundAppPolicy(p: Probe)
    ensures ForegroundApp(p).Some? <==>
              p.window != 0 && p.owner.Found? && p.exePath.Found?
              && (FileDescription(p).Found? || p.processName.Found?)
    ensures ForegroundApp(p).Some? && FileDescription(p).Found? ==>
              ForegroundApp(p).value == FileDescription(p).value
    ensures ForegroundApp(p).Some? && FileDescription(p).Failed? ==>
              ForegroundApp(p).value == p.processName.value
  {
  }
}
