/** JSON as the saga uses it (utils/serialize.go): `Serialize` is
    `json.Marshal`, here written out for the three values the handlers
    serialise (an event key string and the two event payloads), and
    `Deserialize` rejects empty input before handing the bytes to
    `json.Unmarshal`, whose verdict comes from outside the model. */
module Codec {
  import opened Wrappers
  import opened ObjectIds

  /** The error `Deserialize` returns for empty input. */
  const ErrNoData := Error("no data to deserialize")

  /** How `json.Marshal` writes one character inside a string literal:
      quote and backslash are escaped, other control characters (as
      encoding/json did before Go 1.22 gave `\b` and `\f` short forms) and the
      HTML-sensitive `<`, `>`, `&` and U+2028/U+2029 become `\u` escapes. */
  function EscapeChar(c: char): (r: string)
    ensures r == [c] || (|r| >= 2 && r[0] == '\\')
    ensures c == '"' || c == '\\' || c < ' ' ==> |r| >= 2 && r[0] == '\\'
  {
    if c == '"' then "\\\""
    else if c == '\\' then "\\\\"
    else if c == '\n' then "\\n"
    else if c == '\r' then "\\r"
    else if c == '\t' then "\\t"
    else if c < ' ' then "\\u00" + [HexDigits[c as int / 16], HexDigits[c as int % 16]]
    else if c == '<' then "\\u003c"
    else if c == '>' then "\\u003e"
    else if c == '&' then "\\u0026"
    else if c == '\U{2028}' then "\\u2028"
    else if c == '\U{2029}' then "\\u2029"
    else [c]
  }

  /** A character `json.Marshal` copies unchanged. */
  predicate IsPlainChar(c: char) {
    EscapeChar(c) == [c]
  }

  function Escape(s: string): (r: string)
    ensures |r| >= |s|
    ensures (forall i | 0 <= i < |s| :: IsPlainChar(s[i])) ==> r == s
  {
    if s == [] then [] else EscapeChar(s[0]) + Escape(s[1..])
  }

  /** `json.Marshal` of a Go string: the escaped text between double quotes.
      The result is never the string itself, so a key that was serialised
      never equals the constant it was made from. */
  function SerializeString(s: string): (r: string)
    ensures |r| >= |s| + 2 && r[0] == '"' && r[|r| - 1] == '"'
    ensures r != s
    ensures (forall i | 0 <= i < |s| :: IsPlainChar(s[i])) ==> r == "\"" + s + "\""
  {
    "\"" + Escape(s) + "\""
  }

  predicate IsDigitString(s: string) {
    forall i | 0 <= i < |s| :: '0' <= s[i] <= '9'
  }

  /** The number a string of decimal digits denotes, read left to right. */
  function DigitsValue(s: string): int
    requires IsDigitString(s)
  {
    if s == [] then 0 else DigitsValue(s[..|s| - 1]) * 10 + (s[|s| - 1] as int - '0' as int)
  }

  /** `strconv.FormatInt(n, 10)`, which is how `json.Marshal` writes an `int`:
      a minus sign exactly for negative numbers, then the digits of the
      magnitude. */
  function Decimal(n: int): (r: string)
    ensures |r| >= 1 && (r[0] == '-' <==> n < 0)
    ensures n >= 0 ==> IsDigitString(r) && DigitsValue(r) == n
    ensures n < 0 ==> IsDigitString(r[1..]) && DigitsValue(r[1..]) == -n
  {
    if n < 0 then
      var r := "-" + Digits(-n);
      assert r[1..] == Digits(-n);
      r
    else Digits(n)
  }

  /** The decimal digits of `n`, without leading zeros. */
  function Digits(n: nat): (r: string)
    ensures |r| >= 1 && IsDigitString(r)
    ensures DigitsValue(r) == n
    ensures r[0] == '0' ==> n == 0
  {
    if n < 10 then ["0123456789"[n]]
    else
      var r := Digits(n / 10) + ["0123456789"[n % 10]];
      assert r[..|r| - 1] == Digits(n / 10);
      r
  }

  /** `json.Marshal(ProductCreatedPayload{ProductID, Quantity})`; both fields
      carry well-formed tags, `product_id` and `quantity`. */
  function SerializeProductCreated(productId: string, quantity: int): (r: string)
    ensures (forall i | 0 <= i < |productId| :: IsPlainChar(productId[i])) ==>
              r == "{\"product_id\":" + ("\"" + productId + "\"") + ",\"quantity\":" + Decimal(quantity) + "}"
  {
    "{\"product_id\":" + SerializeString(productId) + ",\"quantity\":" + Decimal(quantity) + "}"
  }

  /** `json.Marshal(AddInventoryFailedEvent{ProductID})`. The field's tag
      lacks its closing quote, so encoding/json ignores it and uses the
      field name `ProductID` as the key. */
  function SerializeInventoryCreatedFailed(productId: string): (r: string)
    ensures (forall i | 0 <= i < |productId| :: IsPlainChar(productId[i])) ==>
              r == "{\"ProductID\":" + ("\"" + productId + "\"") + "}"
  {
    "{\"ProductID\":" + SerializeString(productId) + "}"
  }

  /** Hex digits are copied unchanged into a JSON string. */
  lemma HexIsPlain(s: string)
    requires IsHexString(s)
    ensures forall i | 0 <= i < |s| :: IsPlainChar(s[i])
  {
  }

  /** `utils.Deserialize(data, out)`: empty input is rejected here; any other
      input gets the verdict of `json.Unmarshal`, supplied as `unmarshal`. */
  function Deserialize<T>(data: string, unmarshal: Result<T>): (r: Result<T>)
    ensures data == [] ==> r == Err(ErrNoData)
    ensures data != [] ==> r == unmarshal
  {
    if |data| == 0 then Err(ErrNoData) else unmarshal
  }
}
