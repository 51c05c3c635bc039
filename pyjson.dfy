/** Python's `json.dumps` with its default settings: `ensure_ascii` escapes,
    `", "` between items and `": "` after keys. */
module PyJson {
  import opened JsText
  import opened JsonValue

  /** Every character is printable ASCII (space to tilde). */
  predicate Printable(s: string)
  {
    forall k :: 0 <= k < |s| ==> 0x20 <= s[k] as int <= 0x7E
  }

  /** A lower-case hexadecimal digit. */
  function HexDigit(d: int): (c: char)
    requires 0 <= d < 16
    ensures Printable([c])
  {
    if d < 10 then (48 + d) as char else (87 + d) as char
  }

  /** Four lower-case hexadecimal digits of a 16-bit code unit. */
  function Hex4(n: int): (r: string)
    requires 0 <= n < 0x10000
    ensures |r| == 4 && Printable(r)
  {
    [HexDigit(n / 4096), HexDigit(n / 256 % 16), HexDigit(n / 16 % 16), HexDigit(n % 16)]
  }

  /** How one character of a string is written. */
  function EscapeChar(c: char): (r: string)
    ensures Printable(r) && |r| >= 1
    ensures (0x20 <= c as int <= 0x7E && c != '"' && c != '\\') <==> r == [c]
  {
    var n := c as int;
    if c == '"' then "\\\""
    else if c == '\\' then "\\\\"
    else if n == 10 then "\\n"
    else if n == 13 then "\\r"
    else if n == 9 then "\\t"
    else if n == 8 then "\\b"
    else if n == 12 then "\\f"
    else if 0x20 <= n <= 0x7E then [c]
    else if n < 0x10000 then "\\u" + Hex4(n)
    else
      var u := n - 0x10000;
      "\\u" + Hex4(0xD800 + u / 0x400) + "\\u" + Hex4(0xDC00 + u % 0x400)
  }

  /** The escaped characters of a string, without the quotes. */
  function EscapeAll(s: string): (r: string)
    ensures Printable(r)
    ensures |r| >= |s|
  {
    if |s| == 0 then "" else EscapeChar(s[0]) + EscapeAll(s[1..])
  }

  /** A string literal. */
  function Quote(s: string): (r: string)
    ensures Printable(r)
    ensures |r| >= 2 && r[0] == '"' && r[|r| - 1] == '"'
  {
    "\"" + EscapeAll(s) + "\""
  }

  /** `json.dumps(v)`. Its output is printable ASCII, so in particular it has
      no line breaks and `str.encode()` turns it into its character codes. */
  function Dumps(v: Json): (r: string)
    ensures Printable(r) && |r| >= 1
    ensures v.JObj? ==> |r| >= 2 && r[0] == '{' && r[|r| - 1] == '}'
    ensures v.JArr? ==> |r| >= 2 && r[0] == '[' && r[|r| - 1] == ']'
  {
    match v
    case JNull => "null"
    case JBool(b) => if b then "true" else "false"
    case JNum(n) => PrintableNumber(n); IntToString(n)
    case JStr(s) => Quote(s)
    case JArr(items) =>
      var parts := seq(|items|, i requires 0 <= i < |items| => Dumps(items[i]));
      JoinPrintable(parts, ", ");
      "[" + Join(parts, ", ") + "]"
    case JObj(fields) =>
      var parts := seq(|fields|, i requires 0 <= i < |fields| => Quote(fields[i].0) + ": " + Dumps(fields[i].1));
      JoinPrintable(parts, ", ");
      "{" + Join(parts, ", ") + "}"
  }

  lemma PrintableNumber(n: int)
    ensures Printable(IntToString(n))
  {
  }

  lemma {:induction false} JoinPrintable(parts: seq<string>, sep: string)
    requires Printable(sep)
    requires forall i :: 0 <= i < |parts| ==> Printable(parts[i])
    ensures Printable(Join(parts, sep))
    decreases |parts|
  {
    if |parts| > 1 {
      JoinPrintable(parts[1..], sep);
    }
  }
}
