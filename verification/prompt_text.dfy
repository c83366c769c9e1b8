/** Section markers and the replace-all loop the prompt manager uses to fill
    a template (`PromptManager::ToString`, `PromptManager::ReplaceSection`). */
module PromptText {
  import opened Wrappers
  import opened Text

  /** `PromptSection`, plus the values outside the enumeration a cast can produce. */
  datatype Section = USER_PROMPT | TUPLES | RESPONSE_FORMAT | INSTRUCTIONS | OutOfRange(code: int)

  /** `ToString<PromptSection>`: the placeholder a section occupies in a template. */
  function Marker(s: Section): (m: string)
    ensures s.OutOfRange? <==> m == ""
    ensures !s.OutOfRange? ==> |m| > 4 && m[0] == '{' && m[1] == '{'
  {
    match s
    case USER_PROMPT => "{{USER_PROMPT}}"
    case TUPLES => "{{TUPLES}}"
    case RESPONSE_FORMAT => "{{RESPONSE_FORMAT}}"
    case INSTRUCTIONS => "{{INSTRUCTIONS}}"
    case OutOfRange(_) => ""
  }

  /** The four markers are pairwise distinct. */
  lemma MarkersDistinct(a: Section, b: Section)
    requires !a.OutOfRange? && !b.OutOfRange? && a != b
    ensures Marker(a) != Marker(b)
  {
  }

  /** The reference meaning of replace-all over the ORIGINAL text: copy the
      text up to the first occurrence of `t`, emit `c` in its place, and
      replace in what follows the occurrence. */
  function ReplaceAll(s: string, t: string, c: string): (r: string)
    requires |t| > 0
    decreases |s|
  {
    match Find(s, t, 0)
    case None => s
    case Some(i) => s[..i] + c + ReplaceAll(s[i + |t|..], t, c)
  }

  /** Searching `done + s[k..]` from `|done| + j` is searching `s` from `k + j`. */
  lemma {:induction false} FindRebased(s: string, k: nat, done: string, t: string, j: nat)
    requires |t| > 0 && k <= |s|
    ensures var r := Find(done + s[k..], t, |done| + j); var f := Find(s, t, k + j);
      r.Some? == f.Some? && (r.Some? ==> r.value == f.value - k + |done|)
    decreases |s| - k - j
  {
    var u := done + s[k..];
    if |done| + j + |t| <= |u| {
      assert OccursAt(u, t, |done| + j) == OccursAt(s, t, k + j) by {
        OccursAtPointwise(u, t, |done| + j);
        OccursAtPointwise(s, t, k + j);
        forall m | 0 <= m < |t| ensures u[|done| + j + m] == t[m] <==> s[k + j + m] == t[m] {
          assert u[|done| + j + m] == s[k..][j + m];
        }
      }
      if !OccursAt(s, t, k + j) {
        FindRebased(s, k, done, t, j + 1);
      }
    }
  }

  /** Searching `x + b` from `|x|` finds what searching `b` from the start
      finds, shifted by `|x|`. */
  lemma FindShifted(x: string, b: string, t: string)
    requires |t| > 0
    ensures Find(b, t, 0).None? ==> Find(x + b, t, |x|).None?
    ensures Find(b, t, 0).Some? ==> Find(x + b, t, |x|) == Some(|x| + Find(b, t, 0).value)
  {
    FindRebased(b, 0, x, t, 0);
    assert b[0..] == b;
  }

  /** `ReplaceSection(template, target, content)`: replaces every occurrence
      of `target`, searching the modified text again only after the content
      just inserted, so inserted content is never rescanned and the result is
      the replacement of the original occurrences. The loop is the source's;
      the guard on an empty target is the correction of the endless search
      `SearchPasses` exhibits, and leaves the template as it is. */
  method ReplaceSection(template: string, target: string, content: string) returns (prompt: string)
    ensures |target| == 0 ==> prompt == template
    ensures |target| > 0 ==> prompt == ReplaceAll(template, target, content)
  {
    if |target| == 0 {
      return template;
    }
    prompt := template;
    var pos: Option<nat> := Find(prompt, target, 0);
    assert Scan(prompt, target, content, pos) == ReplaceAll(template, target, content) by {
      ScanReplaces("", template, target, content);
      assert "" + template == template;
    }
    while pos.Some?
      invariant pos.Some? ==> pos.value + |target| <= |prompt|
      invariant Scan(prompt, target, content, pos) == ReplaceAll(template, target, content)
      decreases if pos.Some? then |prompt| - pos.value else 0
    {
      var p := pos.value;
      ghost var before := prompt;
      prompt := prompt[..p] + content + prompt[p + |target|..];
      pos := Find(prompt, target, p + |content|);
      assert Scan(before, target, content, Some(p)) == Scan(prompt, target, content, pos) by {
        ScanUnfold(before, target, content, p, prompt);
      }
    }
  }

  /** The source's loop as a recursion on its state: the text so far and
      the position `find` answered last. Each pass splices `c` over the
      occurrence at `pos` and searches again after the inserted content. */
  function Scan(prompt: string, t: string, c: string, pos: Option<nat>): string
    requires |t| > 0
    requires pos.Some? ==> pos.value + |t| <= |prompt|
    decreases if pos.Some? then |prompt| - pos.value else 0
  {
    match pos
    case None => prompt
    case Some(p) =>
      var next := prompt[..p] + c + prompt[p + |t|..];
      Scan(next, t, c, Find(next, t, p + |c|))
  }

  /** The loop, started after the already-filled `done`, replaces every
      occurrence in the original `rest` and nothing it inserted. */
  lemma {:induction false} ScanReplaces(done: string, rest: string, t: string, c: string)
    requires |t| > 0
    ensures Scan(done + rest, t, c, Find(done + rest, t, |done|)) == done + ReplaceAll(rest, t, c)
    decreases |rest|
  {
    FindShifted(done, rest, t);
    match Find(rest, t, 0)
    case None =>
    case Some(i) =>
      var p := |done| + i;
      var done', rest' := done + rest[..i] + c, rest[i + |t|..];
      assert (done + rest)[..p] + c + (done + rest)[p + |t|..] == done' + rest' && p + |c| == |done'| by {
        Splice(done + rest, done, rest, c, p, i, |t|);
      }
      assert Scan(done + rest, t, c, Some(p)) == Scan(done' + rest', t, c, Find(done' + rest', t, |done'|)) by {
        ScanUnfold(done + rest, t, c, p, done' + rest');
      }
      assert Scan(done' + rest', t, c, Find(done' + rest', t, |done'|)) == done' + ReplaceAll(rest', t, c) by {
        ScanReplaces(done', rest', t, c);
      }
      assert done + ReplaceAll(rest, t, c) == done' + ReplaceAll(rest', t, c) by {
        SectionStep(done, rest, t, c, i);
      }
  }

  /** One pass of the loop, with the spliced text named. */
  lemma ScanUnfold(prompt: string, t: string, c: string, p: nat, next: string)
    requires |t| > 0 && p + |t| <= |prompt| && next == prompt[..p] + c + prompt[p + |t|..]
    ensures Scan(prompt, t, c, Some(p)) == Scan(next, t, c, Find(next, t, p + |c|))
  {
  }

  /** One pass of the loop on the reference: replacing the first
      occurrence, at `i` of the rest, moves the text before it and the
      content into the output. */
  lemma SectionStep(done: string, rest: string, t: string, c: string, i: nat)
    requires |t| > 0 && Find(rest, t, 0) == Some(i)
    ensures done + ReplaceAll(rest, t, c) == (done + rest[..i] + c) + ReplaceAll(rest[i + |t|..], t, c)
  {
    Regroup(done, rest[..i], c, ReplaceAll(rest[i + |t|..], t, c));
  }

  /** One pass of the loop on the text: splicing the content over the
      occurrence at `p = |done| + i` of `done + rest`. */
  lemma Splice(prompt: string, done: string, rest: string, c: string, p: nat, i: nat, n: nat)
    requires prompt == done + rest && p == |done| + i && i + n <= |rest|
    ensures p + n <= |prompt|
    ensures prompt[..p] + c + prompt[p + n..] == (done + rest[..i] + c) + rest[i + n..]
    ensures p + |c| == |done + rest[..i] + c|
  {
    assert prompt[..p] == done + rest[..i];
    assert prompt[p + n..] == rest[i + n..];
  }

  lemma Regroup(a: string, b: string, c: string, d: string)
    ensures a + (b + c + d) == (a + b + c) + d
  {
  }

  /** `ReplaceSection(template, section, content)`: fills a section's marker;
      a value outside the enumeration has the empty marker and leaves the
      template as it is. */
  method FillSection(template: string, section: Section, content: string) returns (prompt: string)
    ensures section.OutOfRange? ==> prompt == template
    ensures !section.OutOfRange? ==> prompt == ReplaceAll(template, Marker(section), content)
  {
    prompt := ReplaceSection(template, Marker(section), content);
  }

  /** The state of the source's loop: the text so far and the position the
      last search returned (`None` for `npos`). */
  datatype Search = Search(prompt: string, pos: Option<nat>)

  /** One pass of the source's loop body, without the guard on the target. */
  function SearchPass(st: Search, t: string, c: string): (r: Search)
    requires st.pos.Some? && st.pos.value + |t| <= |st.prompt|
    ensures |r.prompt| == |st.prompt| - |t| + |c|
  {
    var p := st.pos.value;
    var prompt := st.prompt[..p] + c + st.prompt[p + |t|..];
    Search(prompt, Find(prompt, t, p + |c|))
  }

  /** The source's loop after `n` passes, as written: the first search, then
      pass after pass while the last search found something. */
  function SearchPasses(template: string, t: string, c: string, n: nat): (r: Search)
    ensures r.pos.Some? ==> r.pos.value + |t| <= |r.prompt|
  {
    if n == 0 then Search(template, Find(template, t, 0))
    else
      var st := SearchPasses(template, t, c, n - 1);
      if st.pos.None? then st else SearchPass(st, t, c)
  }

  /** An empty target is found wherever the search starts inside the text. */
  lemma FindEmpty(s: string, from: nat)
    requires from <= |s|
    ensures Find(s, "", from) == Some(from)
  {
    assert OccursAt(s, "", from);
  }

  /** As written, the loop never ends on an empty target: after any number
      of passes the last search has found the empty target again. */
  lemma {:induction false} EmptyTargetNeverStops(template: string, c: string, n: nat)
    ensures SearchPasses(template, "", c, n).pos.Some?
  {
    if n == 0 {
      FindEmpty(template, 0);
    } else {
      EmptyTargetNeverStops(template, c, n - 1);
      var st := SearchPasses(template, "", c, n - 1);
      var p := st.pos.value;
      var prompt := st.prompt[..p] + c + st.prompt[p..];
      FindEmpty(prompt, p + |c|);
    }
  }

  /** With an empty content as well, a pass changes nothing at all: the loop
      spins on the same text and the same position. */
  lemma {:induction false} EmptyTargetMakesNoProgress(template: string, n: nat)
    ensures SearchPasses(template, "", "", n) == Search(template, Some(0))
  {
    FindEmpty(template, 0);
    if n > 0 {
      EmptyTargetMakesNoProgress(template, n - 1);
      assert template[..0] + "" + template[0..] == template;
    }
  }

  /** A template without the target is returned unchanged. */
  lemma ReplaceAbsent(s: string, t: string, c: string)
    requires |t| > 0 && forall j :: 0 <= j ==> !OccursAt(s, t, j)
    ensures ReplaceAll(s, t, c) == s
  {
    FindIsFirst(s, t, 0);
  }

  /** Filling a section with its own marker leaves a template unchanged. */
  lemma {:induction false} ReplaceAllBySelf(s: string, t: string)
    requires |t| > 0
    ensures ReplaceAll(s, t, t) == s
    decreases |s|
  {
    match Find(s, t, 0)
    case None =>
    case Some(i) =>
      FindIsFirst(s, t, 0);
      ReplaceAllBySelf(s[i + |t|..], t);
      OccursAtPointwise(s, t, i);
      assert s[i..i + |t|] == t;
      assert s == s[..i] + s[i..i + |t|] + s[i + |t|..];
  }

  /** A template that is exactly the target becomes exactly the content, even
      when the content itself contains the target. */
  lemma ReplaceWhole(t: string, c: string)
    requires |t| > 0
    ensures ReplaceAll(t, t, c) == c
  {
    OccursAtPointwise(t, t, 0);
    assert Find(t, t, 0) == Some(0);
    assert Find(t[|t|..], t, 0) == None;
    assert t[..0] + c + t[|t|..] == c;
  }

  /** When `t` does not start anywhere inside `a`, the first replacement in
      `a + t + b` is the occurrence right after `a`, and the rest of the work
      is replacing in `b`. */
  lemma ReplaceFirst(a: string, t: string, b: string, c: string)
    requires |t| > 0 && forall j :: 0 <= j < |a| ==> !OccursAt(a + t + b, t, j)
    ensures ReplaceAll(a + t + b, t, c) == a + c + ReplaceAll(b, t, c)
  {
    var s := a + t + b;
    FirstOccurrence(a, t, b);
    assert s[..|a|] == a;
    assert s[|a| + |t|..] == b;
  }

  /** The search from the start stops at the occurrence right after `a`. */
  lemma FirstOccurrence(a: string, t: string, b: string)
    requires |t| > 0 && forall j :: 0 <= j < |a| ==> !OccursAt(a + t + b, t, j)
    ensures Find(a + t + b, t, 0) == Some(|a|)
  {
    MarkerAfter(a, t, b);
    FindFirstAfter(a + t + b, t, |a|, 0);
  }

  /** A target that occurs exactly once is replaced by the content, whatever
      the content holds. */
  lemma ReplaceUnique(a: string, t: string, b: string, c: string)
    requires |t| > 0 && forall j :: OccursAt(a + t + b, t, j) ==> j == |a|
    ensures ReplaceAll(a + t + b, t, c) == a + c + b
  {
    ReplaceFirst(a, t, b, c);
    forall j | 0 <= j
      ensures !OccursAt(b, t, j)
    {
      if OccursAt(b, t, j) {
        OccursShifted(a + t, b, t, j);
      }
    }
    ReplaceAbsent(b, t, c);
  }

  /** An occurrence in `b` is an occurrence in `x + b`, shifted by `|x|`. */
  lemma OccursShifted(x: string, b: string, t: string, j: nat)
    requires OccursAt(b, t, j)
    ensures OccursAt(x + b, t, |x| + j)
  {
    var s := x + b;
    OccursAtPointwise(b, t, j);
    OccursAtPointwise(s, t, |x| + j);
    forall m | 0 <= m < |t| ensures s[|x| + j + m] == t[m] {
      assert s[|x| + j + m] == b[j + m];
    }
  }

  lemma MarkerAfter(a: string, t: string, b: string)
    ensures OccursAt(a + t + b, t, |a|)
  {
    var s := a + t + b;
    OccursAtPointwise(s, t, |a|);
    forall m | 0 <= m < |t| ensures s[|a| + m] == t[m] { }
  }

  lemma {:induction false} FindFirstAfter(s: string, t: string, p: nat, from: nat)
    requires |t| > 0 && from <= p && OccursAt(s, t, p)
    requires forall j :: from <= j < p ==> !OccursAt(s, t, j)
    ensures Find(s, t, from) == Some(p)
    decreases p - from
  {
    if from < p {
      FindFirstAfter(s, t, p, from + 1);
    }
  }
}
