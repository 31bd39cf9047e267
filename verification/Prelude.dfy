/** Small shared vocabulary. */
module Prelude {

  datatype Option<+T> = None | Some(value: T)

  /** The time read while the event of each number is written. */
  type Clock = nat -> nat

  /** White space as string trimming sees it (the Unicode `White_Space` property). */
  predicate IsWhite(c: char) {
    || '\t' <= c <= '\r'
    || c == ' '
    || c as int == 0x85
    || c as int == 0xA0
    || c as int == 0x1680
    || 0x2000 <= c as int <= 0x200A
    || c as int in {0x2028, 0x2029, 0x202F, 0x205F, 0x3000}
  }

  /** The white space of ordinary text: blanks, tabs and line ends, and no printable character. */
  lemma WhiteSays(c: char)
    ensures IsWhite(' ') && IsWhite('\t') && IsWhite('\n') && IsWhite('\r')
    ensures '!' <= c <= '~' ==> !IsWhite(c)
  {}

  /** True when trimming the string leaves nothing. */
  predicate Blank(s: string) {
    forall i :: 0 <= i < |s| ==> IsWhite(s[i])
  }
}

/** JSON values as the report payload carries them. */
module Json {
  import opened Prelude

  datatype Value =
    | Null
    | Bool(b: bool)
    | Num(n: int)
    | Str(s: string)
    | Arr(items: seq<Value>)
    | Obj(fields: Fields)

  type Fields = map<string, Value>

  function Get(o: Fields, key: string): Option<Value> {
    if key in o then Some(o[key]) else None
  }

  function AsStr(v: Option<Value>): Option<string> {
    if v.Some? && v.value.Str? then Some(v.value.s) else None
  }

  function AsBool(v: Option<Value>): Option<bool> {
    if v.Some? && v.value.Bool? then Some(v.value.b) else None
  }
}
