/**
 * The two chip patterns of the application form, written as recursive
 * character predicates (JavaScript `\w` is `[A-Za-z0-9_]` without the `u` flag):
 *
 *   email:  ^[\w.-]+@([\w-]+\.)+[\w-]{2,}$
 *   domain: ^([\w-]+\.)+[\w-]{2,}$
 *
 * Labels cannot contain '.', and the local part cannot contain '@', so
 * each pattern is matched by a single left-to-right scan.
 */
module ChipPatterns {
  import opened JsText

  predicate IsWordChar(c: char) {
    ('a' <= c <= 'z') || ('A' <= c <= 'Z') || ('0' <= c <= '9') || c == '_'
  }

  /** `[\w-]` */
  predicate IsLabelChar(c: char) {
    IsWordChar(c) || c == '-'
  }

  /** `[\w.-]` */
  predicate IsLocalChar(c: char) {
    IsWordChar(c) || c == '.' || c == '-'
  }

  /**
   * `([\w-]+\.)+[\w-]{2,}$` matched from position `i`, where `dotted` says a
   * `label.` group has already been read and `run` counts the characters of
   * the label being read.
   */
  predicate DomainFrom(s: string, i: nat, dotted: bool, run: nat)
    requires i <= |s|
    decreases |s| - i
  {
    if i == |s| then dotted && run >= 2
    else if IsLabelChar(s[i]) then DomainFrom(s, i + 1, dotted, run + 1)
    else s[i] == '.' && run >= 1 && DomainFrom(s, i + 1, true, 0)
  }

  /** `^[\w.-]+@` followed by the domain part, from position `i`; `run` counts local characters read. */
  predicate EmailFrom(s: string, i: nat, run: nat)
    requires i <= |s|
    decreases |s| - i
  {
    if i == |s| then false
    else if IsLocalChar(s[i]) then EmailFrom(s, i + 1, run + 1)
    else s[i] == '@' && run >= 1 && DomainFrom(s, i + 1, false, 0)
  }

  /** The domain scan never accepts an '@'. */
  lemma {:induction false} DomainFromHasNoAt(s: string, i: nat, dotted: bool, run: nat)
    requires i <= |s| && DomainFrom(s, i, dotted, run)
    ensures forall k | i <= k < |s| :: s[k] != '@'
    decreases |s| - i
  {
    if i < |s| {
      if IsLabelChar(s[i]) {
        DomainFromHasNoAt(s, i + 1, dotted, run + 1);
      } else {
        DomainFromHasNoAt(s, i + 1, true, 0);
      }
    }
  }

  /** Scanning `s` from `i` is scanning its suffix `s[k..]` from `i - k`. */
  lemma {:induction false} DomainFromSuffix(s: string, k: nat, i: nat, dotted: bool, run: nat)
    requires k <= i <= |s|
    ensures DomainFrom(s, i, dotted, run) == DomainFrom(s[k..], i - k, dotted, run)
    decreases |s| - i
  {
    if i < |s| {
      assert s[k..][i - k] == s[i];
      DomainFromSuffix(s, k, i + 1, dotted, run + 1);
      DomainFromSuffix(s, k, i + 1, true, 0);
    }
  }

  /** An accepted email's '@' is its last one, and the domain scan accepts what follows it. */
  lemma {:induction false} EmailFromSplitsAtLastAt(s: string, i: nat, run: nat)
    requires i <= |s| && EmailFrom(s, i, run)
    ensures i <= LastIndexOf(s, '@') && DomainFrom(s, LastIndexOf(s, '@') + 1, false, 0)
    ensures run == 0 ==> i < LastIndexOf(s, '@')
    decreases |s| - i
  {
    if IsLocalChar(s[i]) {
      EmailFromSplitsAtLastAt(s, i + 1, run + 1);
    } else {
      DomainFromHasNoAt(s, i + 1, false, 0);
      assert LastIndexOf(s, '@') == i;
    }
  }

  /** A matching suffix holds a dot (unless one was already read) and leaves room for a two-character last label. */
  lemma {:induction false} DomainFromShape(s: string, i: nat, dotted: bool, run: nat)
    requires i <= |s| && DomainFrom(s, i, dotted, run)
    ensures dotted || '.' in s[i..]
    ensures |s| - i + run >= 2
    decreases |s| - i
  {
    if i < |s| {
      if IsLabelChar(s[i]) {
        DomainFromShape(s, i + 1, dotted, run + 1);
        assert s[i + 1..] == s[i..][1..];
      } else {
        DomainFromShape(s, i + 1, true, 0);
        assert s[i..][0] == '.';
      }
    }
  }

  /**
   * `domainRegex.test(s)`: an accepted domain is non-empty, holds a dot and no
   * '@', and its last label has at least two characters.
   */
  predicate IsDomain(s: string): (b: bool)
    ensures b ==> s != [] && '.' in s && '@' !in s
  {
    if DomainFrom(s, 0, false, 0) then
      DomainFromShape(s, 0, false, 0);
      DomainFromHasNoAt(s, 0, false, 0);
      assert s[0..] == s;
      true
    else false
  }

  /**
   * `emailRegex.test(s)`: an accepted email holds an '@' with at least one
   * character before it, and what follows its last '@' is itself a domain.
   */
  predicate IsEmail(s: string): (b: bool)
    ensures b ==> LastIndexOf(s, '@') >= 1 && IsDomain(AfterLast(s, '@'))
  {
    if EmailFrom(s, 0, 0) then
      EmailFromSplitsAtLastAt(s, 0, 0);
      var j := LastIndexOf(s, '@') + 1;
      DomainFromSuffix(s, j, j, false, 0);
      true
    else false
  }
}
