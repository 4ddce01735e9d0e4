/**
  * The part of the POSIX shell grammar that the generated scripts rely on: token
  * recognition with single quotes and backslashes (sections 2.2.1, 2.2.2 and 2.3 of
  * POSIX.1-2017 XCU chapter 2), and quoting as its inverse.
  *
  * The reader is conservative: it stops at an unquoted character that could start an expansion,
  * a pattern, a comment or a double-quoted string, and keeps what it has read before. The tokens
  * it gives are therefore exactly what the shell sees, expanded no further.
  */
module Shell {
  import opened Common

  datatype Token = Word(text: string) | Operator(text: string) | IoNumber(text: string) | NewLine

  datatype State =
    | Outside                                  // between tokens
    | InWord(word: string, digits: bool)       // `digits`: only unquoted digits so far
    | InQuotes(word: string)                   // inside '...'
    | AfterBackslash(word: string)

  predicate IsDigit(c: char) {
    '0' <= c <= '9'
  }

  /** Unquoted, these stand for themselves: all but blanks, quotes, operators, and what starts an expansion, a pattern or a comment. */
  predicate IsPlain(c: char) {
    || '%' == c || '+' <= c <= ':' || c == '=' || '@' <= c <= 'Z' || c == ']' || c == '^' || c == '_'
    || 'a' <= c <= 'z' || c > '~' || (c < ' ' && c != '\0' && c != '\t' && c != '\n')
  }

  predicate AllPlain(s: string) {
    forall i | 0 <= i < |s| :: IsPlain(s[i])
  }

  predicate AllDigits(s: string) {
    forall i | 0 <= i < |s| :: IsDigit(s[i])
  }

  predicate NoNul(s: string) {
    forall i | 0 <= i < |s| :: s[i] != '\0'
  }

  predicate IsOperatorStart(c: char) {
    c == '&' || c == '|' || c == ';' || c == '<' || c == '>' || c == '(' || c == ')'
  }

  /** Two characters that form one operator. */
  predicate IsPair(c: char, d: char) {
    || (c == d && (c == '&' || c == '|' || c == ';' || c == '<' || c == '>'))
    || ((c == '<' || c == '>') && d == '&') || (c == '<' && d == '>') || (c == '>' && d == '|')
  }

  /** Length of the longest operator at the start of the input, 0 when there is none. */
  function OperatorLength(s: string): (n: nat)
    ensures n <= |s|
  {
    if s == "" || !IsOperatorStart(s[0]) then 0
    else if |s| == 1 || !IsPair(s[0], s[1]) then 1
    else if |s| >= 3 && s[0] == '<' && s[1] == '<' && s[2] == '-' then 3
    else 2
  }

  function Pending(st: State): string {
    if st.Outside? then "" else st.word
  }

  /** How far the reading of an input has got: what it gave, and where it stands. */
  datatype Reading = Reading(tokens: seq<Token>, state: State, rest: string)

  /** One token before those of a reading. */
  function Put(token: Token, r: Reading): Reading {
    r.(tokens := [token] + r.tokens)
  }

  function Prepend(tokens: seq<Token>, r: Reading): Reading {
    r.(tokens := tokens + r.tokens)
  }

  lemma PrependTwice(a: seq<Token>, b: seq<Token>, r: Reading)
    ensures Prepend(a, Prepend(b, r)) == Prepend(a + b, r)
  {
    assert a + (b + r.tokens) == (a + b) + r.tokens;
  }

  /** The word being read ends here. */
  function EndWord(st: State, r: Reading): Reading {
    if st.InWord? then Put(Word(st.word), r) else r
  }

  /** The word being read ends at an operator: before a redirection, unquoted digits are a descriptor number. */
  function EndAtOperator(st: State, op: string, r: Reading): Reading {
    if st.InWord? && st.digits && op != "" && (op[0] == '<' || op[0] == '>')
    then Put(IoNumber(st.word), r) else EndWord(st, r)
  }

  /**
    * Reads `input` from state `st` until at most `left` characters remain, or until a character
    * whose meaning is not simply that of a token: what was read before it is kept.
    */
  function Lex(st: State, input: string, left: nat): Reading
    decreases |input|
  {
    if |input| <= left then Reading([], st, input)
    else
      var c, rest := input[0], input[1..];
      if c == '\0' then Reading([], st, input)
      else if st.InQuotes? then
        if c == '\'' then Lex(InWord(st.word, false), rest, left) else Lex(InQuotes(st.word + [c]), rest, left)
      else if st.AfterBackslash? then
        if c == '\n' then Reading([], st, input) else Lex(InWord(st.word + [c], false), rest, left)
      else if c == '\'' then Lex(InQuotes(Pending(st)), rest, left)
      else if c == '\\' then Lex(AfterBackslash(Pending(st)), rest, left)
      else if c == ' ' || c == '\t' then EndWord(st, Lex(Outside, rest, left))
      else if c == '\n' then EndWord(st, Put(NewLine, Lex(Outside, rest, left)))
      else if IsPlain(c) then
        Lex(InWord(Pending(st) + [c], (st.Outside? || st.digits) && IsDigit(c)), rest, left)
      else
        var n := OperatorLength(input);
        if n == 0 then Reading([], st, input)
        else EndAtOperator(st, input[..n], Put(Operator(input[..n]), Lex(Outside, input[n..], left)))
  }

  /** All of it was read, and no quote is open. */
  function Complete(r: Reading): Option<seq<Token>> {
    if r.rest != "" then None
    else match r.state
         case Outside => Some(r.tokens)
         case InWord(word, _) => Some(r.tokens + [Word(word)])
         case _ => None
  }

  /** The tokens of a whole input; none when it is unfinished or would be expanded. */
  function Tokenize(input: string): Option<seq<Token>> {
    Complete(Lex(Outside, input, 0))
  }

  // ----- Quoting (crates/api-server/src/run.rs) -----

  /** `text.replace('\'', r"'\''")`. */
  function Escape(text: string): string {
    if text == "" then ""
    else (if text[0] == '\'' then "'\\''" else [text[0]]) + Escape(text[1..])
  }

  function Quote(text: string): string {
    "'" + Escape(text) + "'"
  }

  /** Inside quotes, an escaped text followed by the closing quote adds exactly the text. */
  lemma {:induction false} LexEscaped(word: string, text: string, rest: string, left: nat)
    requires left <= |rest|
    requires NoNul(text)
    ensures Lex(InQuotes(word), Escape(text) + ("'" + rest), left) == Lex(InWord(word + text, false), rest, left)
    decreases text
  {
    if text == "" {
      LexClosing(word, rest, left);
      assert "" + ("'" + rest) == "'" + rest && word + text == word;
    } else {
      var tail := Escape(text[1..]) + ("'" + rest);
      LexEscaped(word + [text[0]], text[1..], rest, left);
      assert word + [text[0]] + text[1..] == word + text;
      EscapeFirst(text, "'" + rest);
      if text[0] == '\'' {
        LexEscapedQuote(word, tail, left);
      } else {
        LexQuotedChar(word, text[0], tail, left);
      }
    }
  }

  lemma EscapeFirst(text: string, after: string)
    requires text != ""
    ensures Escape(text) + after == (if text[0] == '\'' then "'\\''" else [text[0]]) + (Escape(text[1..]) + after)
  {
  }

  lemma LexClosing(word: string, rest: string, left: nat)
    requires left <= |rest|
    ensures Lex(InQuotes(word), "'" + rest, left) == Lex(InWord(word, false), rest, left)
  {
    assert ("'" + rest)[1..] == rest;
  }

  lemma LexQuotedChar(word: string, c: char, tail: string, left: nat)
    requires left <= |tail|
    requires c != '\'' && NoNul([c])
    ensures Lex(InQuotes(word), [c] + tail, left) == Lex(InQuotes(word + [c]), tail, left)
  {
    assert ([c] + tail)[1..] == tail && ([c] + tail)[0] == c;
  }

  /** The four characters that stand for one quote leave and re-enter the quotes. */
  lemma LexEscapedQuote(word: string, tail: string, left: nat)
    requires left <= |tail|
    ensures Lex(InQuotes(word), "'\\''" + tail, left) == Lex(InQuotes(word + "'"), tail, left)
  {
    var s := "'\\''" + tail;
    assert s[1..][1..] == "''" + tail;
    assert s[1..][1..][1..] == "'" + tail;
    assert s[1..][1..][1..][1..] == tail;
    assert s[1..][0] == '\\' && s[1..][1..][0] == '\'' && s[1..][1..][1..][0] == '\'';
    assert Lex(InQuotes(word), s, left) == Lex(InWord(word, false), s[1..], left);
    assert Lex(InWord(word, false), s[1..], left) == Lex(AfterBackslash(word), s[1..][1..], left);
    assert Lex(AfterBackslash(word), s[1..][1..], left) == Lex(InWord(word + "'", false), s[1..][1..][1..], left);
    assert Lex(InWord(word + "'", false), s[1..][1..][1..], left) == Lex(InQuotes(word + "'"), s[1..][1..][1..][1..], left);
  }

  /** Wherever a quoted text starts, it adds exactly the text to the current word. */
  lemma LexQuoted(st: State, text: string, rest: string, left: nat)
    requires left <= |rest|
    requires NoNul(text) && (st.Outside? || st.InWord?)
    ensures Lex(st, Quote(text) + rest, left) == Lex(InWord(Pending(st) + text, false), rest, left)
  {
    var tail := Escape(text) + ("'" + rest);
    assert Quote(text) + rest == "'" + tail;
    LexOpeningQuote(st, tail, left);
    LexEscaped(Pending(st), text, rest, left);
  }

  lemma LexOpeningQuote(st: State, tail: string, left: nat)
    requires left <= |tail|
    requires st.Outside? || st.InWord?
    ensures Lex(st, "'" + tail, left) == Lex(InQuotes(Pending(st)), tail, left)
  {
    assert ("'" + tail)[1..] == tail;
  }

  /** The round trip: for every NUL-free text, `Quote` is one word, and that word is the text. */
  lemma QuoteIsOneWord(text: string)
    requires NoNul(text)
    ensures Tokenize(Quote(text)) == Some([Word(text)])
  {
    LexQuoted(Outside, text, "", 0);
    assert Quote(text) + "" == Quote(text);
    assert "" + text == text;
    assert [] + [Word(text)] == [Word(text)];
  }

  // ----- Unquoted pieces -----

  lemma {:induction false} LexPlain(st: State, word: string, rest: string, left: nat)
    requires left <= |rest|
    requires AllPlain(word) && word != "" && (st.Outside? || st.InWord?)
    ensures Lex(st, word + rest, left)
         == Lex(InWord(Pending(st) + word, (st.Outside? || st.digits) && AllDigits(word)), rest, left)
    decreases word
  {
    var next := InWord(Pending(st) + [word[0]], (st.Outside? || st.digits) && IsDigit(word[0]));
    assert (word + rest)[1..] == word[1..] + rest;
    if |word| == 1 {
      assert word[1..] + rest == rest;
      assert word == [word[0]];
    } else {
      LexPlain(next, word[1..], rest, left);
      assert Pending(st) + [word[0]] + word[1..] == Pending(st) + word;
      assert AllDigits(word) <==> IsDigit(word[0]) && AllDigits(word[1..]);
    }
  }

  lemma LexBlank(st: State, rest: string, left: nat)
    requires left <= |rest|
    requires st.Outside? || st.InWord?
    ensures Lex(st, " " + rest, left) == EndWord(st, Lex(Outside, rest, left))
    ensures Lex(st, "\n" + rest, left) == EndWord(st, Put(NewLine, Lex(Outside, rest, left)))
  {
    assert (" " + rest)[1..] == rest && ("\n" + rest)[1..] == rest;
  }

  /** An operator that the next character does not extend. */
  lemma LexOperator(st: State, op: string, rest: string, left: nat)
    requires left <= |rest|
    requires st.Outside? || st.InWord?
    requires op != "" && IsOperatorStart(op[0]) && OperatorLength(op + rest) == |op|
    ensures Lex(st, op + rest, left) == EndAtOperator(st, op, Put(Operator(op), Lex(Outside, rest, left)))
  {
    var s := op + rest;
    assert s[0] == op[0] && !IsPlain(s[0]);
    assert s[..|op|] == op && s[|op|..] == rest;
    assert Lex(st, s, left) == EndAtOperator(st, s[..|op|], Put(Operator(s[..|op|]), Lex(Outside, s[|op|..], left)));
  }

  // ----- Command lines, word by word -----

  /** A word and a space, a line end, or a semicolon and a space, then the rest of the script. */
  function Sp(word: string, rest: string): string { word + (" " + rest) }
  function Nl(word: string, rest: string): string { word + ("\n" + rest) }
  function Sc(word: string, rest: string): string { word + ("; " + rest) }

  lemma AppendTo(word: string, a: string, b: string)
    ensures Sp(word, a) + b == Sp(word, a + b)
    ensures Nl(word, a) + b == Nl(word, a + b)
    ensures Sc(word, a) + b == Sc(word, a + b)
  {
  }

  /** How an open word ends. */
  lemma LexEnd(word: string, digits: bool, rest: string, left: nat)
    requires left <= |rest|
    ensures Lex(InWord(word, digits), " " + rest, left) == Put(Word(word), Lex(Outside, rest, left))
    ensures Lex(InWord(word, digits), "\n" + rest, left) == Put(Word(word), Put(NewLine, Lex(Outside, rest, left)))
    ensures Lex(InWord(word, digits), "; " + rest, left) == Put(Word(word), Put(Operator(";"), Lex(Outside, rest, left)))
  {
    LexBlank(InWord(word, digits), rest, left);
    assert "; " + rest == ";" + (" " + rest);
    LexOperator(InWord(word, digits), ";", " " + rest, left);
    LexBlank(Outside, rest, left);
  }

  lemma LexBare(word: string, rest: string, left: nat)
    requires left <= |rest|
    requires word != "" && AllPlain(word)
    ensures Lex(Outside, Sp(word, rest), left) == Put(Word(word), Lex(Outside, rest, left))
    ensures Lex(Outside, Nl(word, rest), left) == Put(Word(word), Put(NewLine, Lex(Outside, rest, left)))
    ensures Lex(Outside, Sc(word, rest), left) == Put(Word(word), Put(Operator(";"), Lex(Outside, rest, left)))
  {
    LexPlain(Outside, word, " " + rest, left);
    LexPlain(Outside, word, "\n" + rest, left);
    LexPlain(Outside, word, "; " + rest, left);
    assert "" + word == word;
    LexEnd(word, AllDigits(word), rest, left);
  }

  lemma LexArgument(prefix: string, text: string, rest: string, left: nat)
    requires left <= |rest|
    requires AllPlain(prefix) && NoNul(text)
    ensures Lex(Outside, prefix + Quote(text) + rest, left) == Lex(InWord(prefix + text, false), rest, left)
  {
    if prefix == "" {
      assert prefix + Quote(text) + rest == Quote(text) + rest;
      LexQuoted(Outside, text, rest, left);
    } else {
      assert prefix + Quote(text) + rest == prefix + (Quote(text) + rest);
      LexPlain(Outside, prefix, Quote(text) + rest, left);
      assert "" + prefix == prefix;
      LexQuoted(InWord(prefix, AllDigits(prefix)), text, rest, left);
    }
  }

  /** A plain prefix and a quoted text are one word. */
  lemma LexArg(prefix: string, text: string, rest: string, left: nat)
    requires left <= |rest|
    requires AllPlain(prefix) && NoNul(text)
    ensures Lex(Outside, Sp(prefix + Quote(text), rest), left) == Put(Word(prefix + text), Lex(Outside, rest, left))
    ensures Lex(Outside, Nl(prefix + Quote(text), rest), left) == Put(Word(prefix + text), Put(NewLine, Lex(Outside, rest, left)))
    ensures Lex(Outside, Sc(prefix + Quote(text), rest), left)
         == Put(Word(prefix + text), Put(Operator(";"), Lex(Outside, rest, left)))
  {
    LexArgument(prefix, text, " " + rest, left);
    LexArgument(prefix, text, "\n" + rest, left);
    LexArgument(prefix, text, "; " + rest, left);
    LexEnd(prefix + text, false, rest, left);
  }

  lemma LexQuote(text: string, rest: string, left: nat)
    requires left <= |rest|
    requires NoNul(text)
    ensures Lex(Outside, Sp(Quote(text), rest), left) == Put(Word(text), Lex(Outside, rest, left))
  {
    LexArg("", text, rest, left);
    assert "" + Quote(text) == Quote(text) && "" + text == text;
  }

  lemma LexOr(rest: string, left: nat)
    requires left <= |rest|
    ensures Lex(Outside, Sp("||", rest), left) == Put(Operator("||"), Lex(Outside, rest, left))
  {
    assert OperatorLength("||" + (" " + rest)) == 2;
    LexOperator(Outside, "||", " " + rest, left);
    LexBlank(Outside, rest, left);
  }

  lemma LexInput(file: string, tail: string, left: nat)
    requires left <= |tail|
    requires file != "" && AllPlain(file)
    ensures Lex(Outside, "<" + (file + tail), left) == Put(Operator("<"), Lex(Outside, file + tail, left))
  {
    assert OperatorLength("<" + (file + tail)) == 1;
    LexOperator(Outside, "<", file + tail, left);
  }

  lemma LexErrorOutput(file: string, tail: string, left: nat)
    requires left <= |tail|
    requires file != "" && AllPlain(file)
    ensures Lex(Outside, "2" + (">" + (file + tail)), left)
         == Put(IoNumber("2"), Put(Operator(">"), Lex(Outside, file + tail, left)))
  {
    assert OperatorLength(">" + (file + tail)) == 1;
    LexPlain(Outside, "2", ">" + (file + tail), left);
    assert "" + "2" == "2";
    LexOperator(InWord("2", true), ">", file + tail, left);
  }

  // ----- Exactly which texts are a word as they stand -----

  predicate OnlyWords(tokens: seq<Token>) {
    forall i | 0 <= i < |tokens| :: tokens[i].Word?
  }

  /** Characters of the tokens. */
  function Weight(tokens: seq<Token>): nat {
    if tokens == [] then 0
    else (if tokens[0].NewLine? then 1 else |tokens[0].text|) + Weight(tokens[1..])
  }

  /** Reading up to the end of a word gives `n` characters less than it took, or it gives more than words, or stops early. */
  predicate Loses(st: State, input: string, left: nat, n: nat) {
    var r := Lex(st, input, left);
    r.state.Outside? && OnlyWords(r.tokens) && |r.rest| < |input| ==>
      Weight(r.tokens) + n <= |Pending(st)| + |input| - |r.rest|
  }

  lemma PutWeighs(token: Token, r: Reading)
    ensures Weight(Put(token, r).tokens) == (if token.NewLine? then 1 else |token.text|) + Weight(r.tokens)
    ensures OnlyWords(Put(token, r).tokens) <==> token.Word? && OnlyWords(r.tokens)
  {
    var tokens := [token] + r.tokens;
    assert tokens[1..] == r.tokens;
    assert forall i | 0 <= i < |r.tokens| :: tokens[i + 1] == r.tokens[i];
  }

  /** Whatever is read is taken from the input; if nothing is, the reading stands where it started. */
  lemma RestIsShorter(st: State, input: string, left: nat)
    ensures var r := Lex(st, input, left);
            |r.rest| <= |input| && (|r.rest| == |input| ==> r == Reading([], st, input))
    decreases |input|
  {
  }

  /** A word in progress ends here, before `r`. */
  lemma EndWordWeighs(st: State, r: Reading)
    requires st.Outside? || st.InWord?
    ensures Weight(EndWord(st, r).tokens) == |Pending(st)| + Weight(r.tokens)
    ensures OnlyWords(EndWord(st, r).tokens) <==> OnlyWords(r.tokens)
  {
    if st.InWord? {
      PutWeighs(Word(st.word), r);
    }
  }

  lemma OperatorsAreNoWords(st: State, op: string, r: Reading)
    requires st.Outside? || st.InWord?
    ensures !OnlyWords(EndAtOperator(st, op, Put(Operator(op), r)).tokens)
    ensures !OnlyWords(EndWord(st, Put(NewLine, r)).tokens)
  {
    PutWeighs(Operator(op), r);
    PutWeighs(NewLine, r);
    EndWordWeighs(st, Put(Operator(op), r));
    EndWordWeighs(st, Put(NewLine, r));
    PutWeighs(IoNumber(Pending(st)), Put(Operator(op), r));
  }

  /** The state after one character that only changes the state. */
  function Moved(st: State, c: char): Option<State> {
    if c == '\0' then None
    else if st.InQuotes? then Some(if c == '\'' then InWord(st.word, false) else InQuotes(st.word + [c]))
    else if st.AfterBackslash? then if c == '\n' then None else Some(InWord(st.word + [c], false))
    else if c == '\'' then Some(InQuotes(Pending(st)))
    else if c == '\\' then Some(AfterBackslash(Pending(st)))
    else if IsPlain(c) then Some(InWord(Pending(st) + [c], (st.Outside? || st.digits) && IsDigit(c)))
    else None
  }

  lemma MoveLoses(st: State, input: string, left: nat, next: State, n: nat)
    requires |input| > left && Moved(st, input[0]) == Some(next) && Loses(next, input[1..], left, n)
    ensures Lex(st, input, left) == Lex(next, input[1..], left)
    ensures Loses(st, input, left, n + |Pending(st)| + 1 - |Pending(next)|)
  {
    RestIsShorter(next, input[1..], left);
  }

  lemma BlankLoses(st: State, input: string, left: nat)
    requires |input| > left && (st.Outside? || st.InWord?) && (input[0] == ' ' || input[0] == '\t')
    requires Loses(Outside, input[1..], left, 1)
    ensures Loses(st, input, left, 1)
    ensures |Lex(st, input, left).rest| < |input| - 1 ==> Loses(st, input, left, 2)
  {
    RestIsShorter(Outside, input[1..], left);
    EndWordWeighs(st, Lex(Outside, input[1..], left));
  }

  /** Everything else is no word, or is not read. */
  lemma OthersLose(st: State, input: string, left: nat, n: nat)
    requires |input| > left && (st.Outside? || st.InWord?)
    requires input[0] != '\'' && input[0] != '\\' && input[0] != ' ' && input[0] != '\t' && !IsPlain(input[0])
    ensures Loses(st, input, left, n)
  {
    var k := OperatorLength(input);
    OperatorsAreNoWords(st, input[..k], Lex(Outside, input[k..], left));
    OperatorsAreNoWords(st, "", Lex(Outside, input[1..], left));
  }

  /** The end of a word takes at least one character that is in no word. */
  lemma {:induction false} LosesOne(st: State, input: string, left: nat)
    ensures Loses(st, input, left, 1)
    decreases |input|
  {
    if |input| > left {
      var c, rest := input[0], input[1..];
      if Moved(st, c).Some? {
        LosesOne(Moved(st, c).value, rest, left);
        MoveLoses(st, input, left, Moved(st, c).value, 1);
      } else if (st.Outside? || st.InWord?) && (c == ' ' || c == '\t') {
        LosesOne(Outside, rest, left);
        BlankLoses(st, input, left);
      } else if st.Outside? || st.InWord? {
        OthersLose(st, input, left, 1);
      }
    }
  }

  /** What reading a text as one word would give. */
  function OneWord(st: State, word: string, rest: string): Reading {
    Reading([Word(Pending(st) + word)], Outside, rest)
  }

  lemma {:induction false} NotPlainIsNoWord(st: State, word: string, rest: string)
    requires (st.Outside? || st.InWord?) && !AllPlain(word)
    ensures Lex(st, word + (" " + rest), |rest|) != OneWord(st, word, rest)
    decreases |word|
  {
    var input, left := word + (" " + rest), |rest|;
    var c, tail := word[0], word[1..] + (" " + rest);
    assert input[0] == c && input[1..] == tail;
    assert Weight(OneWord(st, word, rest).tokens) == |Pending(st)| + |word| by {
      assert OneWord(st, word, rest).tokens[1..] == [];
    }
    if IsPlain(c) {
      var next := Moved(st, c).value;
      assert AllPlain(word) <==> AllPlain(word[1..]);
      NotPlainIsNoWord(next, word[1..], rest);
      assert Pending(st) + word == Pending(next) + word[1..];
      LosesOne(next, tail, left);
      MoveLoses(st, input, left, next, 1);
    } else if c == ' ' || c == '\t' {
      LosesOne(Outside, tail, left);
      BlankLoses(st, input, left);
    } else if c == '\'' || c == '\\' {
      LosesOne(Moved(st, c).value, tail, left);
      MoveLoses(st, input, left, Moved(st, c).value, 1);
    } else {
      OthersLose(st, input, left, 2);
    }
  }

  /** A text written as it stands is read back as one word if and only if it is plain, and not empty. */
  lemma BareWordExactlyWhen(word: string, rest: string)
    ensures Lex(Outside, Sp(word, rest), |rest|) == Reading([Word(word)], Outside, rest) <==> word != "" && AllPlain(word)
  {
    assert "" + word == word;
    if word == "" {
      assert Sp(word, rest) == " " + rest;
      LexBlank(Outside, rest, |rest|);
    } else if AllPlain(word) {
      LexBare(word, rest, |rest|);
      assert [Word(word)] + [] == [Word(word)];
    } else {
      NotPlainIsNoWord(Outside, word, rest);
    }
  }
}
