/** The nginx-style configuration tokenizer: a hand-written DFA that reads one
    character at a time from an input stream, can push one character back,
    and returns one token per call. `Parse` drives it until end of input or
    the first invalid token. */
module NginxConfigParser {

  datatype TokenType =
    | Invalid | Init | BlockStart | BlockEnd | Semicolon | Comment | Word | QuoteWord | Eof

  datatype ParserState =
    | InitState | CommentState | SingleQuoteState | DoubleQuoteState | EndQuoteState | WordState

  /** The outcome of one `get_token` call: the token type, the token text and
      the stream position the call leaves behind. */
  datatype Lexed = Lexed(kind: TokenType, text: string, next: nat)

  predicate IsSpace(c: char) {
    c == ' ' || c == '\t' || c == '\r' || c == '\n'
  }

  predicate IsDelimiter(c: char) {
    c == '{' || c == '}' || c == ';'
  }

  /** Name of a token type, as used in the parser's trace and error logs. */
  function TypeStr(t: TokenType): (r: string)
    ensures |r| > 0
    ensures t == Eof <==> r == "EOF"
  {
    match t
    case Invalid => "INVALID"
    case Init => "INIT"
    case BlockStart => "BLOCK_START"
    case BlockEnd => "BLOCK_END"
    case Semicolon => "SEMICOLON"
    case Comment => "COMMENT"
    case Word => "WORD"
    case QuoteWord => "QUOTE_WORD"
    case Eof => "EOF"
  }

  /** One step of the DFA per character, from position `pos` of `s` in DFA
      state `state` with escape flag `escaped` and the token built so far.
      Reading past the end returns INVALID inside an open quote and EOF
      otherwise; a pushed-back character shows as `next == pos`. */
  function Scan(s: string, pos: nat, state: ParserState, escaped: bool, token: string): (r: Lexed)
    requires pos <= |s|
    ensures pos <= r.next <= |s|
    ensures r.kind == Eof ==> r.next == |s|
    ensures r.kind != Init
    ensures state == InitState && r.kind != Eof ==> r.next > pos
    decreases |s| - pos
  {
    if pos == |s| then
      Lexed(if state == SingleQuoteState || state == DoubleQuoteState then Invalid else Eof, token, |s|)
    else
      var c := s[pos];
      match state
      case InitState =>
        if c == '{' then Lexed(BlockStart, [c], pos + 1)
        else if c == '}' then Lexed(BlockEnd, [c], pos + 1)
        else if c == ';' then Lexed(Semicolon, [c], pos + 1)
        else if c == '#' then Scan(s, pos + 1, CommentState, escaped, [c])
        else if c == '\'' then Scan(s, pos + 1, SingleQuoteState, escaped, [c])
        else if c == '"' then Scan(s, pos + 1, DoubleQuoteState, escaped, [c])
        else if IsSpace(c) then Scan(s, pos + 1, InitState, escaped, token)
        else if c == '\\' then Scan(s, pos + 1, WordState, true, token)
        else Scan(s, pos + 1, WordState, escaped, token + [c])
      case CommentState =>
        if c == '\r' || c == '\n' then Lexed(Comment, token, pos + 1)
        else Scan(s, pos + 1, CommentState, escaped, token + [c])
      case SingleQuoteState =>
        QuoteStep(s, pos, SingleQuoteState, '\'', escaped, token)
      case DoubleQuoteState =>
        QuoteStep(s, pos, DoubleQuoteState, '"', escaped, token)
      case EndQuoteState =>
        if IsSpace(c) then Lexed(QuoteWord, token, pos + 1)
        else if c == ';' then Lexed(QuoteWord, token, pos)
        else Lexed(Invalid, token, pos + 1)
      case WordState =>
        if c == '\\' then
          if escaped then Scan(s, pos + 1, WordState, false, token + [c])
          else Scan(s, pos + 1, WordState, true, token)
        else if IsSpace(c) && !escaped then Lexed(Word, token, pos + 1)
        else if IsDelimiter(c) && !escaped then Lexed(Word, token, pos)
        else Scan(s, pos + 1, WordState, false, token + [c])
  }

  /** The single- and double-quote states, which differ only in the quote
      character that closes them. */
  function QuoteStep(s: string, pos: nat, state: ParserState, quote: char, escaped: bool, token: string): (r: Lexed)
    requires pos < |s|
    requires state == SingleQuoteState || state == DoubleQuoteState
    requires quote == (if state == SingleQuoteState then '\'' else '"')
    ensures pos <= r.next <= |s|
    ensures r.kind == Eof ==> r.next == |s|
    ensures r.kind != Init
    decreases |s| - pos, 0
  {
    var c := s[pos];
    if c == '\\' then
      if escaped then Scan(s, pos + 1, state, false, token + [c])
      else Scan(s, pos + 1, state, true, token)
    else if c == quote && !escaped then Scan(s, pos + 1, EndQuoteState, false, token + [c])
    else Scan(s, pos + 1, state, false, token + [c])
  }

  /** What `get_token` returns when called at position `pos` with a fresh token. */
  function NextToken(s: string, pos: nat): Lexed
    requires pos <= |s|
  {
    Scan(s, pos, InitState, false, "")
  }

  /** Every call that does not report EOF consumes at least one character
      net, so repeated calls make progress; EOF leaves the stream at its end. */
  lemma NextTokenProgress(s: string, pos: nat)
    requires pos <= |s|
    ensures NextToken(s, pos).kind != Eof ==> NextToken(s, pos).next > pos
    ensures NextToken(s, pos).kind == Eof ==> NextToken(s, pos).next == |s|
  {
  }

  /** The token types successive calls return from `pos`, up to and including
      the first EOF or INVALID. */
  function Tokens(s: string, pos: nat): (ts: seq<TokenType>)
    requires pos <= |s|
    ensures |ts| > 0 && ts[|ts| - 1] in {Eof, Invalid}
    ensures forall i :: 0 <= i < |ts| - 1 ==> ts[i] !in {Eof, Invalid}
    decreases |s| - pos
  {
    var r := NextToken(s, pos);
    if r.kind == Eof || r.kind == Invalid then [r.kind]
    else [r.kind] + Tokens(s, r.next)
  }

  /** One call's worth of `Tokens`. */
  lemma TokensStep(s: string, pos: nat, r: Lexed)
    requires pos <= |s| && r == NextToken(s, pos)
    ensures r.kind in {Eof, Invalid} ==> Tokens(s, pos) == [r.kind]
    ensures r.kind !in {Eof, Invalid} ==> r.next > pos && Tokens(s, pos) == [r.kind] + Tokens(s, r.next)
  {
  }

  // ---------------------------------------------------------------------
  // What one call of the tokenizer does, stated on the input text.

  function DelimiterType(c: char): TokenType
    requires IsDelimiter(c)
  {
    if c == '{' then BlockStart else if c == '}' then BlockEnd else Semicolon
  }

  /** In the initial state `{`, `}` and `;` are single-character tokens:
      exactly that one character is consumed. */
  lemma DelimiterIsOwnToken(s: string, pos: nat)
    requires pos < |s| && IsDelimiter(s[pos])
    ensures NextToken(s, pos) == Lexed(DelimiterType(s[pos]), [s[pos]], pos + 1)
  {
  }

  /** Space, tab, CR and LF before a token are skipped and never start a token. */
  lemma {:induction false} WhitespaceSkipped(s: string, pos: nat, q: nat)
    requires pos <= q <= |s|
    requires forall i :: pos <= i < q ==> IsSpace(s[i])
    ensures NextToken(s, pos) == NextToken(s, q)
    decreases q - pos
  {
    if pos < q {
      WhitespaceSkipped(s, pos + 1, q);
    }
  }

  /** At the end of the input the tokenizer reports EOF and stays at the end. */
  lemma EndOfInput(s: string)
    ensures NextToken(s, |s|) == Lexed(Eof, "", |s|)
  {
  }

  function QuoteOf(state: ParserState): char
    requires state == SingleQuoteState || state == DoubleQuoteState
  {
    if state == SingleQuoteState then '\'' else '"'
  }

  /** Inside an open quote, a run free of the closing quote and of backslashes is copied. */
  lemma {:induction false} QuoteRun(s: string, p: nat, q: nat, state: ParserState, token: string)
    requires p <= q <= |s|
    requires state == SingleQuoteState || state == DoubleQuoteState
    requires forall i :: p <= i < q ==> s[i] != QuoteOf(state) && s[i] != '\\'
    ensures Scan(s, p, state, false, token) == Scan(s, q, state, false, token + s[p..q])
    decreases q - p
  {
    if p < q {
      QuoteRun(s, p + 1, q, state, token + [s[p]]);
      assert token + [s[p]] + s[p + 1..q] == token + s[p..q];
    } else {
      assert token + s[p..q] == token;
    }
  }

  /** A quote that is never closed makes the call INVALID at the end of input. */
  lemma {:induction false} OpenQuoteAtEnd(s: string, p: nat, state: ParserState, escaped: bool, token: string)
    requires p <= |s|
    requires state == SingleQuoteState || state == DoubleQuoteState
    requires forall i :: p <= i < |s| ==> s[i] != QuoteOf(state)
    ensures Scan(s, p, state, escaped, token).kind == Invalid
    decreases |s| - p
  {
    if p < |s| {
      var c := s[p];
      if c == '\\' {
        OpenQuoteAtEnd(s, p + 1, state, !escaped, if escaped then token + [c] else token);
      } else {
        OpenQuoteAtEnd(s, p + 1, state, false, token + [c]);
      }
    }
  }

  /** An opening quote with no matching quote character after it: INVALID. */
  lemma UnterminatedQuoteInvalid(s: string, pos: nat)
    requires pos < |s| && (s[pos] == '\'' || s[pos] == '"')
    requires forall i :: pos < i < |s| ==> s[i] != s[pos]
    ensures NextToken(s, pos).kind == Invalid
  {
    var state := if s[pos] == '\'' then SingleQuoteState else DoubleQuoteState;
    OpenQuoteAtEnd(s, pos + 1, state, false, [s[pos]]);
  }

  /** Plain word characters: not whitespace, not a delimiter, not a backslash. */
  predicate PlainWordChar(c: char) {
    !IsSpace(c) && !IsDelimiter(c) && c != '\\'
  }

  /** Characters that may start a WORD token without an escape. */
  predicate WordStart(c: char) {
    PlainWordChar(c) && c != '#' && c != '\'' && c != '"'
  }

  lemma {:induction false} WordRun(s: string, p: nat, q: nat, token: string)
    requires p <= q <= |s|
    requires forall i :: p <= i < q ==> PlainWordChar(s[i])
    ensures Scan(s, p, WordState, false, token) == Scan(s, q, WordState, false, token + s[p..q])
    decreases q - p
  {
    if p < q {
      WordRun(s, p + 1, q, token + [s[p]]);
      assert token + [s[p]] + s[p + 1..q] == token + s[p..q];
    } else {
      assert token + s[p..q] == token;
    }
  }

  /** A WORD ends at an unescaped whitespace character, which is consumed, or
      at an unescaped `{`, `}` or `;`, which is pushed back. */
  lemma WordToken(s: string, pos: nat, q: nat)
    requires pos < q < |s|
    requires WordStart(s[pos])
    requires forall i :: pos < i < q ==> PlainWordChar(s[i])
    requires IsSpace(s[q]) || IsDelimiter(s[q])
    ensures IsSpace(s[q]) ==> NextToken(s, pos) == Lexed(Word, s[pos..q], q + 1)
    ensures IsDelimiter(s[q]) ==> NextToken(s, pos) == Lexed(Word, s[pos..q], q)
  {
    assert "" + [s[pos]] == [s[pos]];
    assert NextToken(s, pos) == Scan(s, pos + 1, WordState, false, [s[pos]]);
    WordRun(s, pos + 1, q, [s[pos]]);
    assert [s[pos]] + s[pos + 1..q] == s[pos..q];
  }

  /** The delimiter a WORD was cut at comes back as the next token. */
  lemma WordThenDelimiter(s: string, pos: nat, q: nat)
    requires pos < q < |s|
    requires WordStart(s[pos])
    requires forall i :: pos < i < q ==> PlainWordChar(s[i])
    requires IsDelimiter(s[q])
    ensures NextToken(s, NextToken(s, pos).next) == Lexed(DelimiterType(s[q]), [s[q]], q + 1)
  {
    WordToken(s, pos, q);
  }

  /** A WORD running into the end of input is dropped: the call reports EOF. */
  lemma TrailingWordDiscarded(s: string, pos: nat)
    requires pos < |s| && WordStart(s[pos])
    requires forall i :: pos < i < |s| ==> PlainWordChar(s[i])
    ensures NextToken(s, pos) == Lexed(Eof, s[pos..], |s|)
  {
    assert "" + [s[pos]] == [s[pos]];
    assert NextToken(s, pos) == Scan(s, pos + 1, WordState, false, [s[pos]]);
    WordRun(s, pos + 1, |s|, [s[pos]]);
    assert [s[pos]] + s[pos + 1..|s|] == s[pos..];
  }

  /** In a WORD, a backslash is dropped and the character after it is taken
      literally, whatever it is; the escape flag is then clear again. */
  lemma EscapeInWord(s: string, p: nat, token: string)
    requires p + 1 < |s| && s[p] == '\\'
    ensures Scan(s, p, WordState, false, token) == Scan(s, p + 2, WordState, false, token + [s[p + 1]])
  {
  }

  /** The same inside quotes: an escaped quote character does not close the quote. */
  lemma EscapeInQuote(s: string, p: nat, state: ParserState, token: string)
    requires p + 1 < |s| && s[p] == '\\'
    requires state == SingleQuoteState || state == DoubleQuoteState
    ensures Scan(s, p, state, false, token) == Scan(s, p + 2, state, false, token + [s[p + 1]])
  {
    assert Scan(s, p, state, false, token) == QuoteStep(s, p, state, QuoteOf(state), false, token);
    assert QuoteStep(s, p, state, QuoteOf(state), false, token) == Scan(s, p + 1, state, true, token);
    assert Scan(s, p + 1, state, true, token) == QuoteStep(s, p + 1, state, QuoteOf(state), true, token);
  }

  /** A quoted token keeps both quotes. After the closing quote, whitespace is
      consumed, `;` is pushed back, and anything else is INVALID. */
  lemma QuotedToken(s: string, pos: nat, q: nat)
    requires pos < q && q + 1 < |s|
    requires s[pos] == '\'' || s[pos] == '"'
    requires forall i :: pos < i < q ==> s[i] != s[pos] && s[i] != '\\'
    requires s[q] == s[pos]
    ensures IsSpace(s[q + 1]) ==> NextToken(s, pos) == Lexed(QuoteWord, s[pos..q + 1], q + 2)
    ensures s[q + 1] == ';' ==> NextToken(s, pos) == Lexed(QuoteWord, s[pos..q + 1], q + 1)
    ensures !IsSpace(s[q + 1]) && s[q + 1] != ';' ==> NextToken(s, pos).kind == Invalid
  {
    var state := if s[pos] == '\'' then SingleQuoteState else DoubleQuoteState;
    assert NextToken(s, pos) == Scan(s, pos + 1, state, false, [s[pos]]);
    QuoteRun(s, pos + 1, q, state, [s[pos]]);
    var tok := [s[pos]] + s[pos + 1..q];
    assert Scan(s, q, state, false, tok) == QuoteStep(s, q, state, QuoteOf(state), false, tok);
    assert Scan(s, q, state, false, tok) == Scan(s, q + 1, EndQuoteState, false, tok + [s[q]]);
    assert tok + [s[q]] == s[pos..q + 1];
  }

  lemma {:induction false} CommentRun(s: string, p: nat, q: nat, escaped: bool, token: string)
    requires p <= q <= |s|
    requires forall i :: p <= i < q ==> s[i] != '\r' && s[i] != '\n'
    ensures Scan(s, p, CommentState, escaped, token) == Scan(s, q, CommentState, escaped, token + s[p..q])
    decreases q - p
  {
    if p < q {
      CommentRun(s, p + 1, q, escaped, token + [s[p]]);
      assert token + [s[p]] + s[p + 1..q] == token + s[p..q];
    } else {
      assert token + s[p..q] == token;
    }
  }

  /** A comment starts at `#`, keeps it, and runs up to (not including) the
      first CR or LF, which is consumed; quotes and backslashes in it are literal. */
  lemma CommentToken(s: string, pos: nat, q: nat)
    requires pos < q < |s|
    requires s[pos] == '#'
    requires forall i :: pos < i < q ==> s[i] != '\r' && s[i] != '\n'
    requires s[q] == '\r' || s[q] == '\n'
    ensures NextToken(s, pos) == Lexed(Comment, s[pos..q], q + 1)
  {
    CommentRun(s, pos + 1, q, false, [s[pos]]);
    assert [s[pos]] + s[pos + 1..q] == s[pos..q];
  }

  /** A comment running into the end of input is dropped like a WORD: the
      call reports EOF. */
  lemma TrailingCommentDiscarded(s: string, pos: nat)
    requires pos < |s| && s[pos] == '#'
    requires forall i :: pos < i < |s| ==> s[i] != '\r' && s[i] != '\n'
    ensures NextToken(s, pos) == Lexed(Eof, s[pos..], |s|)
  {
    CommentRun(s, pos + 1, |s|, false, [s[pos]]);
    assert [s[pos]] + s[pos + 1..|s|] == s[pos..];
  }

  /** A quote closed by the last character of the input is dropped too: the
      closing quote is read, and the end of input outside an open quote is EOF. */
  lemma ClosedQuoteAtEnd(s: string, pos: nat)
    requires pos + 1 < |s|
    requires s[pos] == '\'' || s[pos] == '"'
    requires forall i :: pos < i < |s| - 1 ==> s[i] != s[pos] && s[i] != '\\'
    requires s[|s| - 1] == s[pos]
    ensures NextToken(s, pos) == Lexed(Eof, s[pos..], |s|)
  {
    var q := |s| - 1;
    var state := if s[pos] == '\'' then SingleQuoteState else DoubleQuoteState;
    assert NextToken(s, pos) == Scan(s, pos + 1, state, false, [s[pos]]);
    QuoteRun(s, pos + 1, q, state, [s[pos]]);
    var tok := [s[pos]] + s[pos + 1..q];
    assert Scan(s, q, state, false, tok) == QuoteStep(s, q, state, QuoteOf(state), false, tok);
    assert Scan(s, q, state, false, tok) == Scan(s, q + 1, EndQuoteState, false, tok + [s[q]]);
    assert tok + [s[q]] == s[pos..];
  }

  /** A quote whose last character is an escaped quote is still open at the
      end of input: INVALID, although a quote character follows the opening one. */
  lemma EscapedCloseAtEnd(s: string, pos: nat)
    requires pos + 3 <= |s|
    requires s[pos] == '\'' || s[pos] == '"'
    requires forall i :: pos < i < |s| - 2 ==> s[i] != s[pos] && s[i] != '\\'
    requires s[|s| - 2] == '\\' && s[|s| - 1] == s[pos]
    ensures NextToken(s, pos).kind == Invalid
  {
    var q := |s| - 2;
    var state := if s[pos] == '\'' then SingleQuoteState else DoubleQuoteState;
    assert NextToken(s, pos) == Scan(s, pos + 1, state, false, [s[pos]]);
    QuoteRun(s, pos + 1, q, state, [s[pos]]);
    var tok := [s[pos]] + s[pos + 1..q];
    EscapeInQuote(s, q, state, tok);
  }

  /** A character stream (`boost::filesystem::ifstream`) over a fixed text.
      `failed` is the stream state after a read past the end. */
  class InputStream {
    const data: string
    var pos: nat
    var failed: bool

    ghost predicate Valid()
      reads this
    {
      pos <= |data| && (failed ==> pos == |data|)
    }

    constructor (text: string)
      ensures Valid() && data == text && pos == 0 && !failed
    {
      data := text;
      pos := 0;
      failed := false;
    }

    /** `cfg_in.good()`. */
    function Good(): bool
      reads this
    {
      !failed
    }

    /** `cfg_in.get()`: the next character, or a failed stream at the end. */
    method Get() returns (c: char)
      requires Valid()
      modifies this
      ensures Valid()
      ensures old(pos) < |data| ==> c == data[old(pos)] && pos == old(pos) + 1 && failed == old(failed)
      ensures old(pos) == |data| ==> pos == old(pos) && failed
    {
      if pos < |data| {
        c := data[pos];
        pos := pos + 1;
      } else {
        c := 0 as char;
        failed := true;
      }
    }

    /** `cfg_in.unget()`: push the last character read back. */
    method Unget()
      requires Valid() && pos > 0 && !failed
      modifies this`pos
      ensures Valid() && pos == old(pos) - 1
    {
      pos := pos - 1;
    }
  }

  /** `Parser::get_token`. */
  method GetToken(cfgIn: InputStream) returns (kind: TokenType, token: string)
    requires cfgIn.Valid()
    modifies cfgIn
    ensures cfgIn.Valid()
    ensures Lexed(kind, token, cfgIn.pos) == NextToken(cfgIn.data, old(cfgIn.pos))
  {
    ghost var start := cfgIn.pos;
    var state := InitState;
    var escaped := false;
    token := "";
    if !cfgIn.Good() {
      assert start == |cfgIn.data|;
    }
    while cfgIn.Good()
      invariant cfgIn.Valid()
      invariant start <= cfgIn.pos
      invariant NextToken(cfgIn.data, start) == Scan(cfgIn.data, cfgIn.pos, state, escaped, token)
      invariant state == InitState ==> !escaped
      invariant state == EndQuoteState ==> !escaped
      invariant !cfgIn.Good() ==> cfgIn.pos == start && state == InitState && token == ""
      decreases |cfgIn.data| - cfgIn.pos
    {
      var c := cfgIn.Get();
      if !cfgIn.Good() {
        if state == SingleQuoteState || state == DoubleQuoteState {
          return Invalid, token;
        } else {
          return Eof, token;
        }
      }
      match state {
        case InitState =>
          if c == '{' {
            token := [c];
            return BlockStart, token;
          } else if c == '}' {
            token := [c];
            return BlockEnd, token;
          } else if c == ';' {
            token := [c];
            return Semicolon, token;
          } else if c == '#' {
            token := [c];
            state := CommentState;
          } else if c == '\'' {
            token := [c];
            state := SingleQuoteState;
          } else if c == '"' {
            token := [c];
            state := DoubleQuoteState;
          } else if c == ' ' || c == '\t' || c == '\r' || c == '\n' {
          } else {
            if c == '\\' {
              escaped := true;
            } else {
              token := token + [c];
            }
            state := WordState;
          }
        case CommentState =>
          if c == '\r' || c == '\n' {
            return Comment, token;
          }
          token := token + [c];
        case SingleQuoteState =>
          if c == '\\' {
            if escaped {
              token := token + [c];
              escaped := false;
            } else {
              escaped := true;
            }
          } else {
            token := token + [c];
            if c == '\'' {
              if !escaped {
                state := EndQuoteState;
              }
            }
            escaped := false;
          }
        case DoubleQuoteState =>
          if c == '\\' {
            if escaped {
              token := token + [c];
              escaped := false;
            } else {
              escaped := true;
            }
          } else {
            token := token + [c];
            if c == '"' {
              if !escaped {
                state := EndQuoteState;
              }
            }
            escaped := false;
          }
        case EndQuoteState =>
          if c == ' ' || c == '\r' || c == '\n' || c == '\t' {
            return QuoteWord, token;
          } else if c == ';' {
            cfgIn.Unget();
            return QuoteWord, token;
          } else {
            return Invalid, token;
          }
        case WordState =>
          if c == '\\' {
            if escaped {
              token := token + [c];
              escaped := false;
            } else {
              escaped := true;
            }
          } else {
            if c == ' ' || c == '\r' || c == '\n' || c == '\t' {
              if !escaped {
                return Word, token;
              }
            } else if c == '{' || c == '}' || c == ';' {
              if !escaped {
                cfgIn.Unget();
                return Word, token;
              }
            }
            token := token + [c];
            escaped := false;
          }
      }
    }
    return Eof, token;
  }

  /** `Parser::parse(ifstream&)`: true exactly when the token stream reaches
      EOF before any INVALID token. */
  method Parse(cfgIn: InputStream) returns (ok: bool)
    requires cfgIn.Valid()
    modifies cfgIn
    ensures cfgIn.Valid()
    ensures ok <==> Tokens(cfgIn.data, old(cfgIn.pos))[|Tokens(cfgIn.data, old(cfgIn.pos))| - 1] == Eof
  {
    ghost var start := cfgIn.pos;
    ghost var seen: seq<TokenType> := [];
    while true
      invariant cfgIn.Valid()
      invariant Tokens(cfgIn.data, start) == seen + Tokens(cfgIn.data, cfgIn.pos)
      decreases |cfgIn.data| - cfgIn.pos
    {
      ghost var before := cfgIn.pos;
      var tokenType, token := GetToken(cfgIn);
      TokensStep(cfgIn.data, before, Lexed(tokenType, token, cfgIn.pos));
      if tokenType == Eof || tokenType == Invalid {
        assert Tokens(cfgIn.data, start) == seen + [tokenType];
        return tokenType == Eof;
      }
      seen := seen + [tokenType];
    }
  }
}
