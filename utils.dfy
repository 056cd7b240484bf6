/** Constants and string utilities of the shell: include/utils.h and src/utils.c. */
module Utils {
  import opened Wrappers

  /** Maximum length of a copied string (include/utils.h). */
  const MAX_STRING_LENGTH: nat := 1024

  /** Descriptor numbers live in the kernel's table; only non-negative ones are ever stored. */
  type Fd = nat

  const STDIN_FD: Fd := 0
  const STDOUT_FD: Fd := 1
  const STDERR_FD: Fd := 2
  const PIPE_READ_END: nat := 0
  const PIPE_WRITE_END: nat := 1

  /** `COPY(str)`: `strndup(str, MAX_STRING_LENGTH)`, which keeps at most 1024 characters. */
  function Copy(s: string): (r: string)
    ensures |r| <= MAX_STRING_LENGTH
    ensures r <= s
    ensures |s| <= MAX_STRING_LENGTH ==> r == s
  {
    if |s| <= MAX_STRING_LENGTH then s else s[..MAX_STRING_LENGTH]
  }

  predicate IsQuoteChar(c: char) {
    c == '"' || c == '\''
  }

  /** A NULL-terminated `char**` array holding `ts`. */
  function Terminated(ts: seq<string>): (r: seq<Option<string>>)
    ensures |r| == |ts| + 1 && r[|ts|] == None
    ensures forall k :: 0 <= k < |ts| ==> r[k] == Some(ts[k])
  {
    if ts == [] then [None] else [Some(ts[0])] + Terminated(ts[1..])
  }

  /** The entries of a NULL-terminated array before its first NULL. */
  function Strings(ts: seq<Option<string>>): (r: seq<string>)
    ensures |r| <= |ts|
    ensures forall k :: 0 <= k < |r| ==> ts[k] == Some(r[k])
    ensures |r| < |ts| ==> ts[|r|].None?
  {
    if ts == [] || ts[0].None? then [] else [ts[0].value] + Strings(ts[1..])
  }

  /** Reading a terminated array back gives the strings it was built from. */
  lemma StringsOfTerminated(ws: seq<string>)
    ensures Strings(Terminated(ws)) == ws
  {
  }

  // ---------------------------------------------------------------------------------------
  // tokenizeString: reference definition
  // ---------------------------------------------------------------------------------------

  /** What the tokenizer's loop knows after reading `i` characters: the tokens cut so far,
      where the current token starts, and the single shared "inside quotes" flag. */
  datatype ScanState = ScanState(tokens: seq<string>, start: nat, inside: bool)

  /** The loop of `tokenizeString` over the first `i` characters of `s`. */
  function Scan(s: string, d: char, i: nat): (st: ScanState)
    requires i <= |s|
    ensures st.start <= i && |st.tokens| <= i
    decreases i
  {
    if i == 0 then ScanState([], 0, false)
    else
      var p := Scan(s, d, i - 1);
      var c := s[i - 1];
      if c == d && !p.inside then ScanState(p.tokens + [s[p.start..i - 1]], i, p.inside)
      else if IsQuoteChar(c) then p.(inside := !p.inside)
      else p
  }

  /** The tokens `tokenizeString(s, d)` returns, before the NULL sentinel. */
  function Split(s: string, d: char): (ts: seq<string>)
    ensures |ts| >= 1
  {
    var st := Scan(s, d, |s|);
    st.tokens + [s[st.start..]]
  }

  /** Position `k` of `s` ends a token: an unquoted delimiter. */
  predicate SplitsAt(s: string, d: char, k: nat)
    requires k < |s|
  {
    s[k] == d && !Scan(s, d, k).inside
  }

  /** The tokens joined back together with the delimiter between consecutive ones. */
  function Join(ts: seq<string>, d: char): string
    requires |ts| >= 1
  {
    if |ts| == 1 then ts[0] else Join(ts[..|ts| - 1], d) + [d] + ts[|ts| - 1]
  }

  /** Number of quote characters (either kind) in `t`. */
  function QuoteCount(t: string): nat {
    if t == [] then 0 else QuoteCount(t[..|t| - 1]) + (if IsQuoteChar(t[|t| - 1]) then 1 else 0)
  }

  /** Reference count of the token boundaries: delimiters among the first `n` characters
      that are preceded by an even number of quote characters. */
  function UnquotedDelimiters(s: string, d: char, n: nat): nat
    requires n <= |s|
  {
    if n == 0 then 0
    else UnquotedDelimiters(s, d, n - 1) + (if s[n - 1] == d && QuoteCount(s[..n - 1]) % 2 == 0 then 1 else 0)
  }

  lemma JoinSnoc(ts: seq<string>, y: string, d: char)
    requires |ts| >= 1
    ensures Join(ts + [y], d) == Join(ts, d) + [d] + y
  {
    assert (ts + [y])[..|ts|] == ts;
  }

  /** Appending a character other than a cut extends the last token. */
  lemma JoinExtendLast(ts: seq<string>, last: string, c: char, d: char)
    ensures Join(ts + [last + [c]], d) == Join(ts + [last], d) + [c]
  {
    if ts != [] {
      JoinSnoc(ts, last + [c], d);
      JoinSnoc(ts, last, d);
    }
  }

  lemma {:induction false} ScanJoin(s: string, d: char, i: nat)
    requires i <= |s|
    ensures Join(Scan(s, d, i).tokens + [s[Scan(s, d, i).start..i]], d) == s[..i]
  {
    if i > 0 {
      ScanJoin(s, d, i - 1);
      var p := Scan(s, d, i - 1);
      var st := Scan(s, d, i);
      var c := s[i - 1];
      assert s[..i] == s[..i - 1] + [c];
      if c == d && !p.inside {
        assert st.tokens == p.tokens + [s[p.start..i - 1]] && st.start == i;
        JoinSnoc(st.tokens, [], d);
        assert s[i..i] == [];
      } else {
        assert st.tokens == p.tokens && st.start == p.start;
        assert s[p.start..i] == s[p.start..i - 1] + [c];
        JoinExtendLast(p.tokens, s[p.start..i - 1], c, d);
      }
    }
  }

  /** Round trip: joining the tokens with the delimiter gives back the input. */
  lemma SplitJoin(s: string, d: char)
    ensures Join(Split(s, d), d) == s
  {
    ScanJoin(s, d, |s|);
    assert s[..|s|] == s;
  }

  /** For a delimiter that is not itself a quote character, the shared flag is the parity of
      the quote characters read so far. */
  lemma {:induction false} InsideIsQuoteParity(s: string, d: char, i: nat)
    requires i <= |s| && !IsQuoteChar(d)
    ensures Scan(s, d, i).inside <==> QuoteCount(s[..i]) % 2 == 1
  {
    if i > 0 {
      InsideIsQuoteParity(s, d, i - 1);
      assert s[..i][..i - 1] == s[..i - 1];
    }
  }

  lemma {:induction false} ScanCount(s: string, d: char, i: nat)
    requires i <= |s| && !IsQuoteChar(d)
    ensures |Scan(s, d, i).tokens| == UnquotedDelimiters(s, d, i)
  {
    if i > 0 {
      ScanCount(s, d, i - 1);
      InsideIsQuoteParity(s, d, i - 1);
    }
  }

  /** There is one token more than there are unquoted delimiters. */
  lemma TokenCount(s: string, d: char)
    requires !IsQuoteChar(d)
    ensures |Split(s, d)| == UnquotedDelimiters(s, d, |s|) + 1
  {
    ScanCount(s, d, |s|);
  }

  /** Number of positions among the first `n` where `s` is cut. */
  function SplitCount(s: string, d: char, n: nat): nat
    requires n <= |s|
  {
    if n == 0 then 0 else SplitCount(s, d, n - 1) + (if SplitsAt(s, d, n - 1) then 1 else 0)
  }

  lemma {:induction false} ScanTokensAreSplits(s: string, d: char, i: nat)
    requires i <= |s|
    ensures |Scan(s, d, i).tokens| == SplitCount(s, d, i)
  {
    if i > 0 {
      ScanTokensAreSplits(s, d, i - 1);
    }
  }

  lemma {:induction false} SplitCountBound(s: string, d: char, n: nat)
    requires n <= |s|
    ensures SplitCount(s, d, n) <= n
    ensures SplitCount(s, d, n) == n <==> forall k :: 0 <= k < n ==> SplitsAt(s, d, k)
  {
    if n > 0 {
      SplitCountBound(s, d, n - 1);
    }
  }

  // ---------------------------------------------------------------------------------------
  // tokenizeString: the source's buffer sizing (src/utils.c:26) and its correction
  // ---------------------------------------------------------------------------------------

  /** Number of `char*` slots the source allocates before cutting tokens: `input_length`. */
  function SourceTokenCapacity(s: string): nat {
    |s|
  }

  /** Slots the loop writes before the final `realloc`: one per token. */
  function TokenSlotsWritten(s: string, d: char): nat {
    |Split(s, d)|
  }

  /** The source's buffer is too small exactly when every character of the input is an
      unquoted delimiter (this includes the empty input). */
  lemma SourceCapacityOverflows(s: string, d: char)
    ensures TokenSlotsWritten(s, d) > SourceTokenCapacity(s) <==> forall k :: 0 <= k < |s| ==> SplitsAt(s, d, k)
  {
    ScanTokensAreSplits(s, d, |s|);
    SplitCountBound(s, d, |s|);
  }

  /** A single space split on spaces needs two slots; the source allocates one. */
  lemma SourceCapacityCounterexample()
    ensures TokenSlotsWritten(" ", ' ') == 2 && SourceTokenCapacity(" ") == 1
  {
    assert Scan(" ", ' ', 1) == ScanState([""], 1, false);
  }

  /** The corrected capacity `input_length + 1` always suffices. */
  function TokenCapacity(s: string): (n: nat)
    ensures forall d :: TokenSlotsWritten(s, d) <= n
  {
    |s| + 1
  }

  // ---------------------------------------------------------------------------------------
  // tokenizeString, getTokenCount, removeQuotes
  // ---------------------------------------------------------------------------------------

  /** `tokenizeString`: cut `input` at every delimiter seen while the quote flag is clear.
      Allocates the corrected capacity (see SourceTokenCapacity). */
  method TokenizeString(input: string, delimiter: char) returns (tokens: seq<Option<string>>)
    ensures tokens == Terminated(Split(input, delimiter))
  {
    var buffer := new string[TokenCapacity(input)];
    var tokenCount := 0;
    var i := 0;
    var tokenStart := 0;
    var insideQuotes := false;
    while i < |input|
      invariant i <= |input| && tokenCount <= i && buffer.Length == |input| + 1
      invariant Scan(input, delimiter, i) == ScanState(buffer[..tokenCount], tokenStart, insideQuotes)
    {
      if input[i] == delimiter && !insideQuotes {
        buffer[tokenCount] := input[tokenStart..i];
        tokenCount := tokenCount + 1;
        tokenStart := i + 1;
      } else if input[i] == '"' || input[i] == '\'' {
        insideQuotes := !insideQuotes;
      }
      i := i + 1;
    }
    buffer[tokenCount] := input[tokenStart..];
    tokenCount := tokenCount + 1;
    assert buffer[..tokenCount] == Split(input, delimiter);
    // realloc to tokenCount + 1 slots and store the NULL sentinel
    tokens := [];
    var k := 0;
    while k < tokenCount
      invariant k <= tokenCount
      invariant tokens == Terminated(buffer[..k])[..k]
    {
      assert Terminated(buffer[..k + 1])[..k + 1] == Terminated(buffer[..k])[..k] + [Some(buffer[k])];
      tokens := tokens + [Some(buffer[k])];
      k := k + 1;
    }
    tokens := tokens + [None];
    assert tokens == Terminated(buffer[..tokenCount]);
  }

  /** `getTokenCount`: the number of entries before the first NULL. */
  method GetTokenCount(tokens: seq<Option<string>>) returns (count: nat)
    requires None in tokens
    ensures count < |tokens| && tokens[count] == None
    ensures forall k :: 0 <= k < count ==> tokens[k].Some?
  {
    count := 0;
    while tokens[count] != None
      invariant count < |tokens| && None in tokens[count..]
      invariant forall k :: 0 <= k < count ==> tokens[k].Some?
      decreases |tokens| - count
    {
      assert tokens[count..] == [tokens[count]] + tokens[count + 1..];
      count := count + 1;
    }
  }

  /** `s` starts and ends with the same kind of quote and has room for both. */
  predicate Quoted(s: string) {
    |s| >= 2 && ((s[0] == '"' && s[|s| - 1] == '"') || (s[0] == '\'' && s[|s| - 1] == '\''))
  }

  /** `removeQuotes`: strips one matching pair of surrounding quotes, otherwise returns the
      string unchanged. */
  function RemoveQuotes(s: string): (r: string)
    ensures Quoted(s) <==> |r| == |s| - 2
    ensures Quoted(s) ==> s == [s[0]] + r + [s[0]]
    ensures !Quoted(s) ==> r == s
  {
    if |s| < 2 then s
    else if (s[0] == '"' && s[|s| - 1] == '"') || (s[0] == '\'' && s[|s| - 1] == '\'') then s[1..|s| - 1]
    else s
  }

  /** Wrapping a string in a pair of quotes and removing them gives it back. */
  lemma RemoveQuotesOfQuoted(t: string, q: char)
    requires IsQuoteChar(q)
    ensures RemoveQuotes([q] + t + [q]) == t
  {
    var s := [q] + t + [q];
    assert s[0] == q && s[|s| - 1] == q;
    assert s[1..|s| - 1] == t;
  }

  /** Mismatched quotes are left alone. */
  lemma RemoveQuotesMismatched(t: string)
    ensures RemoveQuotes(['"'] + t + ['\'']) == ['"'] + t + ['\'']
  {
    var s := ['"'] + t + ['\''];
    assert s[0] == '"' && s[|s| - 1] == '\'';
  }

  /** `removeQuotes` is not idempotent: `""a""` loses one layer per call. */
  lemma RemoveQuotesNotIdempotent()
    ensures RemoveQuotes("\"\"a\"\"") == "\"a\""
    ensures RemoveQuotes(RemoveQuotes("\"\"a\"\"")) == "a"
  {
    assert "\"\"a\"\""[1..4] == "\"a\"";
    assert "\"a\""[1..2] == "a";
  }
}
