/**
 * Name arithmetic: sanitising (fluxcd/utils/utils.go), the Kustomization name suffix (fluxcd/reconciler/utils.go) and
 * bounded Job names (taskexecution_controller.go), against DNS-1123 labels and subdomains (section 2.1 of RFC 1123).
 */
module Names {
  import Strings

  const MAX_LABEL := 63
  const MAX_SUFFIX := 36

  predicate IsAlnum(c: char) {
    'a' <= c <= 'z' || '0' <= c <= '9'
  }

  /** A DNS-1123 label of any length. */
  predicate LabelShaped(s: string) {
    && |s| > 0 && IsAlnum(s[0]) && IsAlnum(s[|s| - 1])
    && forall i :: 0 <= i < |s| ==> IsAlnum(s[i]) || s[i] == '-'
  }

  predicate IsLabel(s: string) {
    LabelShaped(s) && |s| <= MAX_LABEL
  }

  /** A DNS-1123 subdomain, as object names are: labels joined by dots. */
  predicate IsSubdomain(s: string) {
    && |s| > 0 && IsAlnum(s[0]) && IsAlnum(s[|s| - 1])
    && (forall i :: 0 <= i < |s| ==> IsAlnum(s[i]) || s[i] == '-' || s[i] == '.')
    && (forall i :: 0 < i < |s| - 1 && s[i] == '.' ==> IsAlnum(s[i - 1]) && IsAlnum(s[i + 1]))
  }

  // ----- SanitizeK8sResourceName -----

  /** unicode.ToLower, for the characters it maps to ASCII letters: A to Z, the Kelvin sign and the dotted capital I. */
  function Lower(c: char): char {
    if 'A' <= c <= 'Z' then c - 'A' + 'a'
    else if c == '\U{212A}' then 'k'
    else if c == '\U{0130}' then 'i'
    else c
  }

  /** One character after lower-casing and the regular expression. */
  function Admitted(c: char): char {
    if IsAlnum(Lower(c)) || c == '-' then Lower(c) else '-'
  }

  function Translate(s: string): string {
    if s == "" then "" else [Admitted(s[0])] + Translate(s[1..])
  }

  function TrimLeft(s: string): string {
    if s != "" && !IsAlnum(s[0]) then TrimLeft(s[1..]) else s
  }

  function TrimRight(s: string): string {
    if s != "" && !IsAlnum(s[|s| - 1]) then TrimRight(s[..|s| - 1]) else s
  }

  function Truncate(s: string): string {
    if |s| > MAX_LABEL then s[..MAX_LABEL] else s
  }

  function Sanitize(name: string): string {
    Truncate(TrimRight(TrimLeft(Translate(name))))
  }

  /** The part of a name from its first to its last letter or digit: what sanitising does not trim. */
  function Core(name: string): string {
    if name == "" then ""
    else if !IsAlnum(Lower(name[0])) then Core(name[1..])
    else if !IsAlnum(Lower(name[|name| - 1])) then Core(name[..|name| - 1])
    else name
  }

  lemma {:induction false} TranslateAt(s: string)
    ensures |Translate(s)| == |s|
    ensures forall i :: 0 <= i < |s| ==> Translate(s)[i] == Admitted(s[i])
  {
    if s != "" {
      TranslateAt(s[1..]);
      assert forall i :: 0 < i < |s| ==> Translate(s)[i] == Translate(s[1..])[i - 1];
    }
  }

  lemma {:induction false} TranslateSlice(s: string, lo: nat, hi: nat)
    requires lo <= hi <= |s|
    ensures hi <= |Translate(s)| && Translate(s[lo..hi]) == Translate(s)[lo..hi]
  {
    TranslateAt(s);
    TranslateAt(s[lo..hi]);
  }

  /** Trimming the translated name leaves the translation of the core. */
  lemma {:induction false} TrimmedCore(name: string)
    ensures TrimRight(TrimLeft(Translate(name))) == Translate(Core(name))
  {
    TranslateAt(name);
    if name != "" {
      if !IsAlnum(Lower(name[0])) {
        TrimmedCore(name[1..]);
        assert Translate(name)[1..] == Translate(name[1..]);
      } else if !IsAlnum(Lower(name[|name| - 1])) {
        var front := name[..|name| - 1];
        TranslateSlice(name, 0, |name| - 1);
        assert front == name[0..|name| - 1];
        TranslateAt(front);
        assert front[0] == name[0];
        TrimmedCore(front);
        assert Translate(name)[..|name| - 1] == Translate(front);
      }
    }
  }

  lemma {:induction false} CoreEnds(name: string)
    ensures Core(name) != "" ==> IsAlnum(Lower(Core(name)[0])) && IsAlnum(Lower(Core(name)[|Core(name)| - 1]))
    ensures |Core(name)| <= |name|
  {
    if name != "" {
      if !IsAlnum(Lower(name[0])) {
        CoreEnds(name[1..]);
      } else if !IsAlnum(Lower(name[|name| - 1])) {
        CoreEnds(name[..|name| - 1]);
      }
    }
  }

  lemma SanitizedCore(name: string)
    ensures Sanitize(name) == Truncate(Translate(Core(name)))
    ensures |Translate(Core(name))| == |Core(name)|
    ensures forall i :: 0 <= i < |Core(name)| ==> Translate(Core(name))[i] == Admitted(Core(name)[i])
  {
    TrimmedCore(name);
    TranslateAt(Core(name));
  }

  /**
   * When sanitising delivers what it is named for: the result is a DNS-1123 label exactly when the name has a letter
   * or digit and the cut at 63 characters does not fall on anything else.
   */
  lemma SanitizeValid(name: string)
    ensures IsLabel(Sanitize(name)) <==>
            Core(name) != "" && (|Core(name)| > MAX_LABEL ==> IsAlnum(Lower(Core(name)[MAX_LABEL - 1])))
  {
    hide Core, Translate, Sanitize;
    SanitizedCore(name);
    CoreEnds(name);
    var core, clean := Core(name), Translate(Core(name));
    if core != "" {
      assert clean[0] == Admitted(core[0]) && clean[|core| - 1] == Admitted(core[|core| - 1]);
    }
  }

  /** It does not always: a dash in the 63rd place survives as the last character. */
  lemma SanitizeInvalid(a: char)
    requires IsAlnum(a)
    ensures var name := seq(62, _ => a) + "-" + [a]; |Sanitize(name)| == MAX_LABEL && !IsLabel(Sanitize(name))
  {
    var name := seq(62, _ => a) + "-" + [a];
    assert name[0] == a && name[63] == a && name[62] == '-';
    assert Core(name) == name;
    SanitizedCore(name);
    SanitizeValid(name);
  }

  lemma CoreWhole(name: string)
    requires name != "" && IsAlnum(Lower(name[0])) && IsAlnum(Lower(name[|name| - 1]))
    ensures Core(name) == name
  {
  }

  /** Labels are left alone. */
  lemma SanitizeIdentity(name: string)
    requires IsLabel(name)
    ensures Sanitize(name) == name
  {
    hide Core, Translate, Sanitize;
    CoreWhole(name);
    SanitizedCore(name);
    assert Translate(name) == name;
  }

  /**
   * Sanitising twice is sanitising once, except where the cut leaves a dash behind for the second time to trim: exactly
   * the names that sanitise to a label, and those without letters and digits, which become empty.
   */
  lemma SanitizeIdempotent(name: string)
    ensures Sanitize(Sanitize(name)) == Sanitize(name) <==>
            Core(name) == "" || (|Core(name)| > MAX_LABEL ==> IsAlnum(Lower(Core(name)[MAX_LABEL - 1])))
  {
    hide Core, Sanitize, Translate;
    SanitizeValid(name);
    SanitizedCore(name);
    var clean := Sanitize(name);
    if IsLabel(clean) {
      SanitizeIdentity(clean);
    } else if Core(name) == "" {
      assert clean == "";
      SanitizedCore(clean);
      CoreEnds(clean);
    } else {
      CoreEnds(name);
      SanitizedCore(clean);
      CoreEnds(clean);
      assert clean[MAX_LABEL - 1] == '-';
      assert Core(clean) != "" ==> IsAlnum(Translate(Core(clean))[|Core(clean)| - 1]);
    }
  }

  // ----- what sanitising does to the characters -----

  lemma LowerFolds(c: char, d: char)
    requires Strings.Fold(c) == Strings.Fold(d)
    ensures Lower(c) == Lower(d) && Admitted(c) == Admitted(d)
  {
  }

  lemma {:induction false} FoldedCore(a: string, b: string)
    requires Strings.EqualFold(a, b)
    ensures Strings.EqualFold(Core(a), Core(b))
    decreases |a|
  {
    if a != "" {
      LowerFolds(a[0], b[0]);
      LowerFolds(a[|a| - 1], b[|b| - 1]);
      if !IsAlnum(Lower(a[0])) {
        FoldedCore(a[1..], b[1..]);
      } else if !IsAlnum(Lower(a[|a| - 1])) {
        FoldedCore(a[..|a| - 1], b[..|b| - 1]);
      }
    }
  }

  /** Case does not matter; with labels left alone, capitals become small letters. */
  lemma SanitizeIgnoresCase(a: string, b: string)
    requires Strings.EqualFold(a, b)
    ensures Sanitize(a) == Sanitize(b)
  {
    hide Core, Sanitize, Translate;
    FoldedCore(a, b);
    SanitizedCore(a);
    SanitizedCore(b);
    forall i | 0 <= i < |Core(a)| ensures Translate(Core(a))[i] == Translate(Core(b))[i] {
      LowerFolds(Core(a)[i], Core(b)[i]);
    }
    assert Translate(Core(a)) == Translate(Core(b));
  }

  /** An ASCII character that is neither a letter nor a digit. */
  predicate IsPunctuation(c: char) {
    c < '\U{80}' && !IsAlnum(c) && !('A' <= c <= 'Z')
  }

  /** Any other ASCII character between two labels becomes a dash, and one outside them disappears. */
  lemma SanitizeReplaces(before: char, a: string, c: char, b: string, after: char)
    requires LabelShaped(a) && LabelShaped(b) && |a| + |b| < MAX_LABEL
    requires IsPunctuation(before) && IsPunctuation(c) && IsPunctuation(after)
    ensures Sanitize([before] + a + [c] + b + [after]) == a + "-" + b
  {
    hide Sanitize, Translate;
    PlainLetter(before);
    PlainLetter(c);
    PlainLetter(after);
    var inner := a + [c] + b;
    var name := [before] + a + [c] + b + [after];
    assert name[0] == before && name[1..] == inner + [after];
    var rest := name[1..];
    assert rest[0] == a[0] && rest[|rest| - 1] == after && rest[..|rest| - 1] == inner;
    assert inner[0] == a[0] && inner[|inner| - 1] == b[|b| - 1];
    PlainLetter(a[0]);
    PlainLetter(b[|b| - 1]);
    CoreWhole(inner);
    assert name[1..|name| - 1] == inner;
    CorePeels(name, inner);
    SanitizedCore(name);
    forall i | 0 <= i < |inner| ensures Translate(inner)[i] == (a + "-" + b)[i] {
      assert i != |a| ==> IsAlnum(inner[i]) || inner[i] == '-';
    }
    assert Translate(inner) == a + "-" + b;
  }

  lemma PlainLetter(c: char)
    ensures IsAlnum(c) ==> Lower(c) == c
    ensures IsPunctuation(c) ==> !IsAlnum(Lower(c)) && Admitted(c) == '-'
  {
  }

  lemma CorePeels(name: string, inner: string)
    requires |name| == |inner| + 2 && inner != "" && name[1..|name| - 1] == inner
    requires !IsAlnum(Lower(name[0])) && !IsAlnum(Lower(name[|name| - 1])) && IsAlnum(Lower(inner[0]))
    ensures Core(name) == Core(inner)
  {
    var rest := name[1..];
    assert rest[0] == inner[0] && rest[|rest| - 1] == name[|name| - 1];
    assert rest[..|rest| - 1] == inner;
  }

  /**
   * Services are selected by the sanitised deployment name, while Flux labels them with the raw one. For an object
   * name the two agree exactly when it has no dot and at most 63 characters.
   */
  lemma SelectorMatches(name: string)
    requires IsSubdomain(name)
    ensures Sanitize(name) == name <==> '.' !in name && |name| <= MAX_LABEL
  {
    hide Core, Translate, Sanitize;
    CoreWhole(name);
    SanitizedCore(name);
    if Sanitize(name) == name {
      forall i | 0 <= i < |name| ensures name[i] != '.' {
        assert Translate(name)[i] == Admitted(name[i]);
      }
    } else if '.' !in name && |name| <= MAX_LABEL {
      forall i | 0 <= i < |name| ensures IsAlnum(name[i]) || name[i] == '-' {
        assert name[i] in name;
      }
      SanitizeIdentity(name);
    }
  }

  /** The two disagree on an ordinary object name. */
  lemma SelectorMisses()
    ensures IsSubdomain("a.b") && Sanitize("a.b") == "a-b"
  {
    CoreWhole("a.b");
    SanitizedCore("a.b");
    assert Translate("a.b") == "a-b";
  }

  lemma SubdomainWithoutDots(s: string)
    requires '.' !in s
    ensures IsSubdomain(s) <==> LabelShaped(s)
  {
    assert forall i :: 0 <= i < |s| ==> s[i] in s;
  }

  lemma SanitizedHasNoDots(name: string)
    ensures '.' !in Sanitize(name)
  {
    hide Core, Sanitize, Translate;
    SanitizedCore(name);
  }

  /**
   * When selectors keep deployments apart: the selector of one deployment is the label of another exactly when its
   * name has a dot or more than 63 characters, and the cut at 63 does not leave it without any namesake.
   */
  lemma SelectorsApart(name: string)
    requires IsSubdomain(name)
    ensures (exists other :: IsSubdomain(other) && other != name && Sanitize(name) == other) <==>
            ('.' in name || |name| > MAX_LABEL) && (|name| > MAX_LABEL ==> IsAlnum(name[MAX_LABEL - 1]))
  {
    hide Core, Sanitize;
    var selector := Sanitize(name);
    SelectorMatches(name);
    CoreWhole(name);
    SanitizeValid(name);
    SanitizedHasNoDots(name);
    SubdomainWithoutDots(selector);
    SanitizedLength(name);
    assert IsSubdomain(selector) <==> IsLabel(selector);
    if IsSubdomain(selector) && selector != name {
      assert exists other :: IsSubdomain(other) && other != name && Sanitize(name) == other;
    }
  }

  lemma SanitizedLength(name: string)
    ensures |Sanitize(name)| <= MAX_LABEL
  {
  }

  // ----- buildKustomizationNameSuffix -----

  /** Bytes of a character in UTF-8. */
  function Utf8Length(c: char): nat {
    if c < '\U{80}' then 1 else if c < '\U{800}' then 2 else if c < '\U{10000}' then 3 else 4
  }

  /** Go's len. */
  function ByteLength(s: string): (n: nat)
    ensures n >= |s|
  {
    if s == "" then 0 else Utf8Length(s[0]) + ByteLength(s[1..])
  }

  function NameSuffix(version: string, hash: string): string {
    var full := version + "-" + hash;
    if ByteLength(full) + 1 <= MAX_SUFFIX then "-" + Sanitize(full) else "-" + Sanitize(hash)
  }

  predicate IsHash(hash: string) {
    hash != "" && forall i :: 0 <= i < |hash| ==> IsAlnum(hash[i])
  }

  predicate EndsInDash(s: string) {
    s != "" && s[|s| - 1] == '-'
  }

  /** Only leading characters are trimmed off a name that ends in letters and digits. */
  lemma {:induction false} CoreKeepsHash(front: string, hash: string) returns (rest: string)
    requires IsHash(hash)
    ensures Core(front + hash) == rest + hash
    ensures |rest| <= |front| && (front == "" || EndsInDash(front) ==> rest == "" || EndsInDash(rest))
  {
    var name := front + hash;
    assert name[|name| - 1] == hash[|hash| - 1];
    if front != "" && !IsAlnum(Lower(front[0])) {
      assert name[1..] == front[1..] + hash;
      rest := CoreKeepsHash(front[1..], hash);
    } else {
      CoreWhole(name);
      rest := front;
    }
  }

  lemma TranslateKeepsHash(rest: string, hash: string)
    requires IsHash(hash)
    ensures Translate(rest + hash) == Translate(rest) + hash
    ensures EndsInDash(rest) ==> EndsInDash(Translate(rest))
  {
    hide Translate;
    TranslateAt(rest);
    TranslateAt(rest + hash);
  }

  /** Sanitising keeps a trailing run of letters and digits, and what stays in front of it still ends in a dash. */
  lemma SanitizedEnd(front: string, hash: string) returns (head: string)
    requires IsHash(hash) && |front| + |hash| <= MAX_LABEL && (front == "" || EndsInDash(front))
    ensures Sanitize(front + hash) == head + hash
    ensures |head| <= |front| && (head == "" || EndsInDash(head))
  {
    hide Core, Sanitize, Translate, EndsInDash;
    SanitizedCore(front + hash);
    var rest := CoreKeepsHash(front, hash);
    TranslateKeepsHash(rest, hash);
    TranslateAt(rest);
    head := Translate(rest);
  }

  /** The suffix is within its bound and ends in a dash and the hash. */
  lemma SuffixShape(version: string, hash: string) returns (head: string)
    requires IsHash(hash) && |hash| < MAX_SUFFIX
    ensures NameSuffix(version, hash) == head + hash && EndsInDash(head)
    ensures |NameSuffix(version, hash)| <= MAX_SUFFIX
  {
    hide Sanitize, ByteLength;
    if ByteLength(version + "-" + hash) + 1 <= MAX_SUFFIX {
      assert version + "-" + hash == (version + "-") + hash;
      head := SanitizedEnd(version + "-", hash);
    } else {
      assert hash == "" + hash;
      head := SanitizedEnd("", hash);
    }
    assert "-" + (head + hash) == ("-" + head) + hash;
    head := "-" + head;
  }

  /** Deployments with different hashes never share a name suffix, whatever their versions. */
  lemma SuffixesDiffer(v1: string, h1: string, v2: string, h2: string)
    requires IsHash(h1) && |h1| < MAX_SUFFIX && IsHash(h2) && |h2| < MAX_SUFFIX
    requires NameSuffix(v1, h1) == NameSuffix(v2, h2)
    ensures h1 == h2
  {
    hide NameSuffix;
    var a := SuffixShape(v1, h1);
    var b := SuffixShape(v2, h2);
    LastDash(a, h1, b, h2);
  }

  lemma LastDash(a: string, h1: string, b: string, h2: string)
    requires IsHash(h1) && IsHash(h2) && EndsInDash(a) && EndsInDash(b)
    requires a + h1 == b + h2
    ensures a == b && h1 == h2
  {
    assert (a + h1)[|a| - 1] == '-' && (b + h2)[|b| - 1] == '-';
    assert |a| == |b|;
    assert (a + h1)[..|a|] == a && (b + h2)[..|b|] == b;
    assert (a + h1)[|a|..] == h1 && (b + h2)[|b|..] == h2;
  }

  lemma {:induction false} AsciiLength(s: string)
    requires forall i :: 0 <= i < |s| ==> s[i] < '\U{80}'
    ensures ByteLength(s) == |s|
  {
    if s != "" {
      AsciiLength(s[1..]);
    }
  }

  /** The version is part of the suffix exactly when both fit: a label-shaped version shows whole, or not at all. */
  lemma SuffixShowsVersion(version: string, hash: string)
    requires LabelShaped(version) && IsHash(hash) && |hash| < MAX_SUFFIX
    ensures NameSuffix(version, hash) ==
            if |version| + |hash| + 2 <= MAX_SUFFIX then "-" + version + "-" + hash else "-" + hash
  {
    hide Sanitize, ByteLength;
    var full := version + "-" + hash;
    AsciiLength(full);
    SanitizeIdentity(hash);
    if |full| < MAX_SUFFIX {
      assert full[0] == version[0] && full[|full| - 1] == hash[|hash| - 1];
      SanitizeIdentity(full);
    }
  }

  /** Length is counted in bytes: a version that fits by its characters alone does not show. */
  lemma SuffixCountsBytes(c: char, hash: string)
    requires c >= '\U{80}' && IsHash(hash) && |hash| == 1
    ensures NameSuffix(seq(18, _ => c), hash) == "-" + hash
  {
    hide Sanitize;
    var version := seq(18, _ => c);
    var full := version + "-" + hash;
    WideLength(full, 18);
    SanitizeIdentity(hash);
  }

  lemma {:induction false} WideLength(s: string, n: nat)
    requires n <= |s| && forall i :: 0 <= i < n ==> s[i] >= '\U{80}'
    ensures ByteLength(s) >= |s| + n
  {
    if n > 0 {
      WideLength(s[1..], n - 1);
    }
  }

  // ----- boundedJobName -----

  /** strings.TrimRight(s, "-") */
  function TrimDashes(s: string): string {
    if s != "" && s[|s| - 1] == '-' then TrimDashes(s[..|s| - 1]) else s
  }

  /** `suffix` is short enough for the slice bound to be non-negative. */
  function BoundedJobName(base: string, suffix: string): string
    requires |suffix| < MAX_LABEL
  {
    var room := MAX_LABEL - |suffix| - 1;
    (if |base| > room then TrimDashes(base[..room]) else base) + "-" + suffix
  }

  lemma {:induction false} TrimDashesEnds(s: string)
    requires s != "" && IsAlnum(s[0])
    ensures TrimDashes(s) != "" && TrimDashes(s) <= s && TrimDashes(s)[|TrimDashes(s)| - 1] != '-'
    ensures forall i :: |TrimDashes(s)| <= i < |s| ==> s[i] == '-'
  {
    if s[|s| - 1] == '-' {
      TrimDashesEnds(s[..|s| - 1]);
    }
  }

  /** A label-shaped base of any length gives a label that still carries the whole suffix. */
  lemma BoundedJobNameIsLabel(base: string, suffix: string)
    requires LabelShaped(base) && IsHash(suffix) && |suffix| <= MAX_LABEL - 2
    ensures IsLabel(BoundedJobName(base, suffix))
    ensures BoundedJobName(base, suffix)[|BoundedJobName(base, suffix)| - |suffix|..] == suffix
  {
    var room := MAX_LABEL - |suffix| - 1;
    if |base| > room {
      TrimDashesEnds(base[..room]);
    }
  }

  /**
   * TaskExecution names may contain dots, and only dashes are trimmed: for an object name the Job name is a valid
   * object name exactly when the cut does not fall right behind a dot.
   */
  lemma BoundedJobNameIsSubdomain(base: string, suffix: string)
    requires IsSubdomain(base) && IsHash(suffix) && |suffix| <= MAX_LABEL - 2
    ensures IsSubdomain(BoundedJobName(base, suffix)) <==>
            (|base| > MAX_LABEL - |suffix| - 1 ==> base[MAX_LABEL - |suffix| - 2] != '.')
  {
    var room := MAX_LABEL - |suffix| - 1;
    var name := BoundedJobName(base, suffix);
    if |base| > room {
      var cut := TrimDashes(base[..room]);
      TrimDashesEnds(base[..room]);
      assert name[|cut|] == '-' && name[..|cut|] == cut;
      if base[room - 1] == '.' {
        assert cut == base[..room];
        assert name[room - 1] == '.' && !IsAlnum(name[room]);
      } else {
        assert cut[|cut| - 1] != '.' by {
          if |cut| < room {
            assert base[|cut|] == '-';
          }
        }
        SubdomainJoined(cut, base, suffix);
      }
    } else {
      SubdomainJoined(base, base, suffix);
    }
  }

  lemma SubdomainJoined(cut: string, base: string, suffix: string)
    requires IsSubdomain(base) && cut != "" && cut <= base && cut[|cut| - 1] != '.' && IsHash(suffix)
    ensures IsSubdomain(cut + "-" + suffix)
  {
    var name := cut + "-" + suffix;
    forall i | 0 < i < |name| - 1 && name[i] == '.' ensures IsAlnum(name[i - 1]) && IsAlnum(name[i + 1]) {
      assert i < |cut| - 1;
      assert name[i - 1] == base[i - 1] && name[i] == base[i] && name[i + 1] == base[i + 1];
    }
  }

  /** And it may fall there: 53 letters, a dot and one more, with the suffix of eight characters that Jobs get. */
  lemma BoundedJobNameInvalid(a: char, suffix: string)
    requires IsAlnum(a) && IsHash(suffix) && |suffix| == 8
    ensures var base := seq(53, _ => a) + "." + [a];
            IsSubdomain(base) && !IsSubdomain(BoundedJobName(base, suffix))
  {
    var base := seq(53, _ => a) + "." + [a];
    assert base[0] == a && base[53] == '.' && base[54] == a && base[52] == a;
    BoundedJobNameIsSubdomain(base, suffix);
  }

  /** A base that fits is kept whole; a longer one is cut to the room there is, and only dashes at the cut are dropped. */
  lemma BoundedJobNameKeeps(base: string, suffix: string) returns (kept: nat)
    requires |suffix| < MAX_LABEL
    ensures |base| + 1 + |suffix| <= MAX_LABEL ==> BoundedJobName(base, suffix) == base + "-" + suffix
    ensures |base| + 1 + |suffix| > MAX_LABEL ==>
              var room := MAX_LABEL - 1 - |suffix|;
              && kept <= room && BoundedJobName(base, suffix) == base[..kept] + "-" + suffix
              && (forall i :: kept <= i < room ==> base[i] == '-') && (kept > 0 ==> base[kept - 1] != '-')
  {
    kept := 0;
    if |base| + 1 + |suffix| > MAX_LABEL {
      var cut := base[..MAX_LABEL - 1 - |suffix|];
      DashesTrimmed(cut);
      kept := |TrimDashes(cut)|;
      assert base[..kept] == TrimDashes(cut);
    }
  }

  lemma {:induction false} DashesTrimmed(s: string)
    ensures TrimDashes(s) <= s && (forall i :: |TrimDashes(s)| <= i < |s| ==> s[i] == '-')
    ensures TrimDashes(s) != "" ==> TrimDashes(s)[|TrimDashes(s)| - 1] != '-'
  {
    if s != "" && s[|s| - 1] == '-' {
      DashesTrimmed(s[..|s| - 1]);
    }
  }
}
