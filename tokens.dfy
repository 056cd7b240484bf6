/** The token classification macros of include/parser.h. Tokens are NUL-free strings, so
    `strcmp(a, b) == 0` is string equality; the macros that test for NULL first take an
    `Option<string>`. */
module Tokens {
  import opened Wrappers

  /** `IS_CHAINING_OPERATOR`: `&` or `;`. */
  predicate IsChainingOperator(t: string) {
    t == "&" || t == ";"
  }

  /** `IS_BACKGROUND`: a non-NULL `&`. */
  predicate IsBackground(t: Option<string>) {
    t.Some? && t.value == "&"
  }

  /** `IS_PIPE`. */
  predicate IsPipe(t: string) {
    t == "|"
  }

  /** `IS_FILE_OUT_REDIR`: `>` or `>>`. */
  predicate IsFileOutRedir(t: string) {
    t == ">" || t == ">>"
  }

  /** `IS_FILE_IN_REDIR`. */
  predicate IsFileInRedir(t: string) {
    t == "<"
  }

  /** `IS_STDERR_REDIR`. */
  predicate IsStderrRedir(t: string) {
    t == "2>"
  }

  /** `IS_NULL`. */
  predicate IsNull(t: Option<string>) {
    t.None?
  }

  /** `IGNORE`: a non-NULL space, tab, newline or empty token. */
  predicate Ignorable(t: Option<string>) {
    t.Some? && (t.value == " " || t.value == "\t" || t.value == "\n" || t.value == "")
  }

  /** `IS_APPEND`. */
  predicate IsAppend(t: string) {
    t == ">>"
  }

  /** Any of the three redirection operators, each of which takes a file name next. */
  predicate IsRedirection(t: string) {
    IsFileOutRedir(t) || IsFileInRedir(t) || IsStderrRedir(t)
  }

  function Indicator(b: bool): nat {
    if b then 1 else 0
  }

  /** The background operator is one of the chaining operators, and the other one is `;`. */
  lemma BackgroundIsChaining(t: Option<string>)
    ensures IsBackground(t) ==> t.Some? && IsChainingOperator(t.value)
    ensures t.Some? && IsChainingOperator(t.value) && !IsBackground(t) ==> t.value == ";"
  {
  }

  /** Append is one of the two output redirections. */
  lemma AppendIsOutputRedirection(t: string)
    ensures IsAppend(t) ==> IsFileOutRedir(t)
    ensures IsFileOutRedir(t) && !IsAppend(t) ==> t == ">"
  {
  }

  /** No token is in more than one of the operator classes. */
  lemma OperatorClassesDisjoint(t: string)
    ensures Indicator(IsChainingOperator(t)) + Indicator(IsPipe(t)) + Indicator(IsFileOutRedir(t))
          + Indicator(IsFileInRedir(t)) + Indicator(IsStderrRedir(t)) <= 1
  {
  }

  /** Ignorable tokens are never operators, and the NULL sentinel is neither ignorable
      nor a background operator. */
  lemma IgnorableIsNotAnOperator(t: Option<string>)
    ensures Ignorable(t) ==> t.Some? && !IsChainingOperator(t.value) && !IsPipe(t.value)
                              && !IsRedirection(t.value)
    ensures IsNull(t) ==> !Ignorable(t) && !IsBackground(t)
  {
  }
}
