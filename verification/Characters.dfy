// The code units that quoting, tokenizing and splicing give a meaning to.
module Characters {
  import opened Tokens

  const TAB: u16 := 9
  const NEWLINE: u16 := 10
  const RETURN_: u16 := 13
  const BLANK: u16 := 32
  const DQUOTE: u16 := 34
  const HASH: u16 := 35
  const DOLLAR: u16 := 36
  const SQUOTE: u16 := 39
  const OPEN: u16 := 40
  const CLOSE: u16 := 41
  const COMMA: u16 := 44
  const SLASH: u16 := 47
  const LBRACKET: u16 := 91
  const BACKSLASH: u16 := 92
  const RBRACKET: u16 := 93
  const CARET: u16 := 94
  const LBRACE: u16 := 123
  const RBRACE: u16 := 125
}
