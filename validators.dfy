/** The two input checks of the current dialog (src/validators.py): the e-mail
    address asked for with an API key, and the free-form `key=value` wild-card
    parameter. */
module Validators {
  import opened Wrappers
  import opened Text

  /** What `[^@]+@[^@]+\.[^@]+` matches from the start of `s` (the match need not reach the end): text
      without `@`, the `@` at `i`, more text without `@`, a dot at `j`, and one more character that is not `@`. */
  predicate EmailShaped(s: string) {
    exists i, j :: 0 <= i < |s| && 0 <= j < |s| && ShapedAt(s, i, j)
  }

  predicate ShapedAt(s: string, i: int, j: int) {
    && 0 < i && i + 1 < j && j + 1 < |s|
    && s[i] == '@' && s[j] == '.' && s[j + 1] != '@'
    && '@' !in s[..i] && '@' !in s[i + 1..j]
  }

  /** The scan for the dot after the `@` at `start - 1`: `s[start..j]` holds no `@`, and a dot at `j` or
      later, with text before it and a character that is not `@` after it, is looked for. */
  function DotAfter(s: string, start: nat, j: nat): bool
    requires start <= j <= |s|
    decreases |s| - j
  {
    if j == |s| || s[j] == '@' then false
    else if s[j] == '.' && start < j && j + 1 < |s| && s[j + 1] != '@' then true
    else DotAfter(s, start, j + 1)
  }

  /** `re.match(r"[^@]+@[^@]+\.[^@]+", s)` is truthy: the first `@` has text before it, and a dot follows. */
  function MatchesEmail(s: string): bool {
    match IndexOf(s, '@')
    case None => false
    case Some(i) => i > 0 && DotAfter(s, i + 1, i + 1)
  }

  lemma {:induction false} DotAfterIff(s: string, start: nat, j: nat)
    requires start <= j <= |s| && '@' !in s[start..j]
    ensures DotAfter(s, start, j) <==>
              exists d :: j <= d && start < d && d + 1 < |s| && s[d] == '.' && s[d + 1] != '@' && '@' !in s[start..d]
    decreases |s| - j
  {
    if j < |s| && s[j] != '@' {
      assert s[start..j + 1] == s[start..j] + [s[j]];
      DotAfterIff(s, start, j + 1);
      if !(s[j] == '.' && start < j && j + 1 < |s| && s[j + 1] != '@') {
        forall d | j <= d && start < d && d + 1 < |s| && s[d] == '.' && s[d + 1] != '@' && '@' !in s[start..d]
          ensures j + 1 <= d
        {
        }
      }
    } else if j < |s| {
      forall d | j <= d && start < d && d + 1 < |s| && s[d] == '.' && s[d + 1] != '@'
        ensures '@' in s[start..d]
      {
        assert s[start..d][j - start] == '@';
      }
    }
  }

  /** The scan agrees with the pattern. */
  lemma MatchesEmailIff(s: string)
    ensures MatchesEmail(s) <==> EmailShaped(s)
  {
    match IndexOf(s, '@')
    case None =>
    case Some(i) =>
      if i > 0 {
        assert s[i + 1..i + 1] == [];
        DotAfterIff(s, i + 1, i + 1);
        if DotAfter(s, i + 1, i + 1) {
          var d :| i + 1 <= d && i + 1 < d && d + 1 < |s| && s[d] == '.' && s[d + 1] != '@' && '@' !in s[i + 1..d];
          assert ShapedAt(s, i, d);
        }
      }
      if EmailShaped(s) {
        var i', j :| 0 <= i' < |s| && 0 <= j < |s| && ShapedAt(s, i', j);
        DotAfterIff(s, i + 1, i + 1);
        assert i + 1 < j && '@' !in s[i + 1..j];
      }
  }

  /** `validate_email(email)`: blank text fails, and otherwise the stripped text must match the pattern. */
  function ValidateEmail(email: string): bool {
    if email == "" || Strip(email) == "" then false else MatchesEmail(Strip(email))
  }

  /** An address is accepted exactly when its stripped text has the e-mail shape; blank text never is. */
  lemma ValidateEmailSpec(email: string)
    ensures ValidateEmail(email) <==> EmailShaped(Strip(email))
    ensures IsBlank(email) ==> !ValidateEmail(email)
  {
    StripEmptyIffBlank(email);
    MatchesEmailIff(Strip(email));
  }

  /** What `validate_wild_card` returns: whether the text is acceptable, and the stripped key and value. */
  datatype WildCard = WildCard(ok: bool, key: Option<string>, value: Option<string>)

  /** `validate_wild_card(wild_card)`: blank text is valid and empty; otherwise it is split at its first `=`,
      and both sides must be non-blank. */
  function ValidateWildCard(w: string): WildCard {
    if w == "" || Strip(w) == "" then WildCard(true, None, None)
    else
      match SplitFirst(w, '=')
      case None => WildCard(false, None, None)
      case Some((k, v)) =>
        if Strip(k) != "" && Strip(v) != "" then WildCard(true, Some(Strip(k)), Some(Strip(v)))
        else WildCard(false, None, None)
  }

  /** Blank text is accepted with no key and no value. */
  lemma WildCardBlank(w: string)
    requires IsBlank(w)
    ensures ValidateWildCard(w) == WildCard(true, None, None)
  {
    StripEmptyIffBlank(w);
  }

  /** `key=value` with a key free of `=` gives the stripped key and value, whatever `=` the value itself
      holds, when neither side is blank; otherwise it is refused. */
  lemma WildCardSplit(k: string, v: string)
    requires '=' !in k
    ensures var r := ValidateWildCard(k + "=" + v);
            && (r.ok <==> !IsBlank(k) && !IsBlank(v))
            && (r.ok ==> r.key == Some(Strip(k)) && r.value == Some(Strip(v)))
            && (!r.ok ==> r.key.None? && r.value.None?)
  {
    var w := k + "=" + v;
    StripEmptyIffBlank(k);
    StripEmptyIffBlank(v);
    StripEmptyIffBlank(w);
    assert w[|k|] == '=';
    assert !IsSpace(w[|k|]);
    var r := SplitFirst(w, '=');
    assert r.Some?;
    var (k', v') := r.value;
    assert w == k' + "=" + v';
    assert k' == w[..|k|] == k;
    assert v' == w[|k| + 1..] == v;
  }

  /** Text that is not blank and holds no `=` is refused. */
  lemma WildCardNoEquals(w: string)
    requires '=' !in w && !IsBlank(w)
    ensures ValidateWildCard(w) == WildCard(false, None, None)
  {
    StripEmptyIffBlank(w);
  }
}
