/** The text a `MessageItem` (src/components/MessageItem.tsx) hands to the
    markdown renderer.  The renderer itself (markdown-it with KaTeX and
    highlight.js) is a parameter `render`, about which nothing is assumed.

    For the message at index 0 the component removes the first occurrence of
    a fixed head text and then the first occurrence of a fixed tail text, the
    way JavaScript's `String.prototype.replace` does with a string pattern.
    These two texts are not the ones `Generator.Template` wraps the first
    prompt in, so on a generated prompt the removal finds nothing, unless
    the product name completes one of them across its boundary with the
    template. */
module MessageItem {
  import opened ChatTypes
  import Generator

  // ---------------------------------------------------------------------
  // First-occurrence replacement
  // ---------------------------------------------------------------------

  /** `pat` occurs in `s` starting at index `i`. */
  predicate OccursAt(s: string, pat: string, i: nat)
  {
    i + |pat| <= |s| && s[i..i + |pat|] == pat
  }

  predicate Occurs(s: string, pat: string)
  {
    exists i: nat :: i <= |s| && OccursAt(s, pat, i)
  }

  /** `i` is where the first occurrence of `pat` in `s` starts. */
  predicate IsFirst(s: string, pat: string, i: nat)
  {
    OccursAt(s, pat, i) && forall j: nat :: j < i ==> !OccursAt(s, pat, j)
  }

  /** The first occurrence of `pat` in `s` at or after index `k`. */
  function FindFrom(s: string, pat: string, k: nat): (r: Option<nat>)
    requires k <= |s|
    ensures r.Some? ==> k <= r.value && OccursAt(s, pat, r.value)
    ensures r.Some? ==> forall j: nat :: k <= j < r.value ==> !OccursAt(s, pat, j)
    ensures r.None? ==> forall j: nat :: k <= j ==> !OccursAt(s, pat, j)
    decreases |s| - k
  {
    if k + |pat| > |s| then None
    else if OccursAt(s, pat, k) then Some(k)
    else FindFrom(s, pat, k + 1)
  }

  /** `s.indexOf(pat)`, with `None` for -1.  The empty pattern is found at 0. */
  function IndexOf(s: string, pat: string): (r: Option<nat>)
    ensures r.Some? <==> Occurs(s, pat)
    ensures r.Some? ==> IsFirst(s, pat, r.value)
  {
    FindFrom(s, pat, 0)
  }

  /** `s.replace(pat, rep)` for a string pattern: only the first occurrence
      is replaced, and a string without one is returned as it is.  The
      replacement is inserted verbatim, which is what JavaScript does for a
      replacement without `$`; the `$$`, `$&`, `` $` `` and `$'` patterns are
      not modelled. */
  function ReplaceFirst(s: string, pat: string, rep: string): (r: string)
    requires '$' !in rep
    ensures !Occurs(s, pat) ==> r == s
    ensures forall i: nat :: IsFirst(s, pat, i) ==> r == s[..i] + rep + s[i + |pat|..]
    ensures |r| == if Occurs(s, pat) then |s| - |pat| + |rep| else |s|
  {
    match IndexOf(s, pat)
    case None => s
    case Some(i) =>
      assert forall i': nat :: IsFirst(s, pat, i') ==> i' == i by {
        forall i': nat | IsFirst(s, pat, i') ensures i' == i {
          assert !(i' < i) && !(i < i');
        }
      }
      s[..i] + rep + s[i + |pat|..]
  }

  /** Removing the first occurrence keeps everything before and after it:
      the result is exactly `|pat|` shorter and misses exactly the span of
      that occurrence. */
  lemma {:induction false} RemoveFirstSpan(s: string, pat: string, i: nat)
    requires IsFirst(s, pat, i)
    ensures var r := ReplaceFirst(s, pat, "");
      && |r| == |s| - |pat|
      && s[i..i + |pat|] == pat
      && r[..i] == s[..i]
      && r[i..] == s[i + |pat|..]
  {
  }

  /** Only the first occurrence goes: an occurrence after it survives,
      moved `|pat|` places to the left. */
  lemma {:induction false} LaterOccurrenceSurvives(s: string, pat: string, i: nat, j: nat)
    requires IsFirst(s, pat, i) && i + |pat| <= j && OccursAt(s, pat, j)
    ensures OccursAt(ReplaceFirst(s, pat, ""), pat, j - |pat|)
  {
    RemoveFirstIsCut(s, pat, i);
    CutKeepsLater(s, i, |pat|, j, |pat|);
  }

  /** Cutting `n` characters out at `i` moves a later span `n` places to
      the left, unchanged. */
  lemma {:induction false} CutKeepsLater(s: string, i: nat, n: nat, j: nat, m: nat)
    requires i + n <= j && j + m <= |s|
    ensures (s[..i] + "" + s[i + n..])[j - n..j - n + m] == s[j..j + m]
  {
    var r := s[..i] + "" + s[i + n..];
    forall p | j - n <= p < j - n + m ensures r[p] == s[p + n] {
      assert r[p] == s[i + n..][p - i];
    }
  }

  /** Removing the first occurrence cuts out its span. */
  lemma {:induction false} RemoveFirstIsCut(s: string, pat: string, i: nat)
    requires IsFirst(s, pat, i)
    ensures ReplaceFirst(s, pat, "") == s[..i] + "" + s[i + |pat|..]
  {
  }

  // ---------------------------------------------------------------------
  // The template stripping of the first message
  // ---------------------------------------------------------------------

  /** The head text removed from the first message, without its closing
      quotation mark. */
  const StripHeadText: string := "你是一个广告投放优化师，" + "基于品牌广告主的商品"

  /** The head text removed from the first message. */
  const StripHead: string := StripHeadText + "\""

  /** The tail text removed from the first message, after its opening
      quotation mark. */
  const StripTailText: string :=
    "，撰写广告文案，文案用于投放APP的开屏广告，" + "因此文案内容要有创意，文字优美，朗朗上口，"
    + "能吸引人点击。请生成5个广告文案，" + "每个文案控制在中文长度20个字以内"

  /** The tail text removed from the first message. */
  const StripTail: string := "\"" + StripTailText

  /** What the first message is reduced to before rendering.  It never
      grows, and it is left exactly as it is when neither the head nor the
      tail text occurs in it. */
  function StripTemplate(s: string): (r: string)
    ensures |r| <= |s|
    ensures r == s <==> !Occurs(s, StripHead) && !Occurs(s, StripTail)
  {
    StripHeadFacts();
    StripTailFacts();
    ReplaceFirst(ReplaceFirst(s, StripHead, ""), StripTail, "")
  }

  /** A string that starts with `head` loses exactly that prefix. */
  lemma {:induction false} RemoveLeading(head: string, rest: string)
    ensures ReplaceFirst(head + rest, head, "") == rest
  {
    var s := head + rest;
    assert s[..|head|] == head;
    assert IsFirst(s, head, 0);
    assert s[|head|..] == rest;
  }

  /** A string that ends with `tail`, whose first character occurs nowhere
      before it, loses exactly that suffix. */
  lemma {:induction false} RemoveTrailing(x: string, tail: string)
    requires tail != [] && tail[0] !in x
    ensures ReplaceFirst(x + tail, tail, "") == x
  {
    var s := x + tail;
    assert s[|x|..|x| + |tail|] == tail;
    forall j: nat | j < |x| ensures !OccursAt(s, tail, j) {
      if j + |tail| <= |s| {
        assert s[j..j + |tail|][0] == x[j];
      }
    }
    assert IsFirst(s, tail, |x|);
    assert s[..|x|] == x;
  }

  /** Removing first a head and then a tail from `head + x + tail` gives
      back `x` when the tail's first character does not occur in `x`. */
  lemma {:induction false} RemoveWrapper(head: string, x: string, tail: string)
    requires tail != [] && tail[0] !in x
    ensures ReplaceFirst(ReplaceFirst(head + x + tail, head, ""), tail, "") == x
  {
    assert head + x + tail == head + (x + tail);
    RemoveLeading(head, x + tail);
    RemoveTrailing(x, tail);
  }

  /** The stripping undoes the wrapper it was written for: a product name
      without quotation marks, wrapped in the head and tail texts, comes
      back unchanged. */
  lemma {:induction false} StripsOwnWrapper(name: string)
    requires '"' !in name
    ensures StripTemplate(StripHead + name + StripTail) == name
  {
    assert StripTail[0] == '"';
    RemoveWrapper(StripHead, name, StripTail);
  }

  /** A pattern cannot start at `i` in `head + x + tail` when it is told
      apart from `head` at some position `k`, its first character occurs
      neither later in `head` nor in `tail`, its other characters differ
      from the first character of `tail`, and it does not occur in `x`
      followed by that character. */
  lemma {:induction false} NotAtAcrossHead(head: string, x: string, tail: string, pat: string, k: nat, i: nat)
    requires k < |head| && k < |pat| && head[k] != pat[k]
    requires pat != [] && pat[0] !in head[1..] && pat[0] !in tail
    requires tail != [] && tail[0] !in pat[..|pat| - 1]
    requires !Occurs(x + [tail[0]], pat)
    ensures !OccursAt(head + x + tail, pat, i)
  {
    var t := head + x + tail;
    var h, n, m := |head|, |x|, |pat|;
    if i + m <= |t| {
      if i == 0 {
        assert t[k] == head[k] != pat[k];
        assert t[i..i + m][k] != pat[k];
      } else if i < h {
        assert t[i] == head[1..][i - 1] != pat[0];
        assert t[i..i + m][0] != pat[0];
      } else if i + m <= h + n + 1 {
        assert !OccursAt(x + [tail[0]], pat, i - h);
        assert t[i..i + m] == (x + [tail[0]])[i - h..i - h + m];
      } else if i < h + n + 1 {
        assert t[h + n] == tail[0] != pat[..m - 1][h + n - i];
        assert t[i..i + m][h + n - i] != pat[h + n - i];
      } else {
        assert t[i] == tail[i - h - n] != pat[0];
        assert t[i..i + m][0] != pat[0];
      }
    }
  }

  /** A pattern longer than `tail` cannot start at `i` in `head + x + tail`
      when its first character ends `head` and occurs nowhere else in
      `head`, its other characters differ from the first character of
      `tail`, and it does not occur in `x` preceded by that last character
      of `head`. */
  lemma {:induction false} NotAtAcrossTail(head: string, x: string, tail: string, pat: string, i: nat)
    requires head != [] && pat != [] && |pat| > |tail|
    requires pat[0] !in head[..|head| - 1]
    requires tail != [] && tail[0] !in pat[1..]
    requires !Occurs([head[|head| - 1]] + x, pat)
    ensures !OccursAt(head + x + tail, pat, i)
  {
    var t := head + x + tail;
    var h, n, m := |head|, |x|, |pat|;
    if i + m <= |t| {
      if i < h - 1 {
        assert t[i] == head[..h - 1][i] != pat[0];
        assert t[i..i + m][0] != pat[0];
      } else if i + m <= h + n {
        assert !OccursAt([head[h - 1]] + x, pat, i - h + 1);
        assert t[i..i + m] == ([head[h - 1]] + x)[i - h + 1..i - h + 1 + m];
      } else {
        assert t[h + n] == tail[0] != pat[1..][h + n - i - 1];
        assert t[i..i + m][h + n - i] != pat[h + n - i];
      }
    }
  }

  /** Facts about the characters of the first-prompt template. */
  lemma TemplateFacts()
    ensures |Generator.TemplateHead| == 17 && |Generator.TemplateTail| == 53
    ensures Generator.TemplateHead[14] == '商' && Generator.TemplateHead[16] == '"'
    ensures '你' !in Generator.TemplateHead[1..] && '"' !in Generator.TemplateHead[..16]
    ensures Generator.TemplateTail[0] == '"' && '你' !in Generator.TemplateTail
  {
    TemplateHeadFacts();
    TemplateTailFacts();
  }

  lemma TemplateHeadFacts()
    ensures |Generator.TemplateHead| == 17
    ensures Generator.TemplateHead[14] == '商' && Generator.TemplateHead[16] == '"'
    ensures '你' !in Generator.TemplateHead[1..] && '"' !in Generator.TemplateHead[..16]
  {
  }

  lemma TemplateTailFacts()
    ensures |Generator.TemplateTail| == 53 && Generator.TemplateTail[0] == '"'
    ensures '你' !in Generator.TemplateTail
  {
    CharFreeJoin('你', "\"，撰写5个新广告文案，", "每个文案控制在中文长度10个字以内，",
                 "不要有标点符号，文案内容要有创意，", "能吸引人点击");
  }

  /** Facts about the characters of the stripped head and tail texts. */
  lemma StripFacts()
    ensures |StripHead| == 23 && |StripTail| == 79
    ensures StripHead[0] == '你' && StripHead[14] == '品'
    ensures StripHead[..22] == StripHeadText && '"' !in StripHeadText
    ensures StripTail[0] == '"' && StripTail[1..] == StripTailText && '"' !in StripTailText
  {
    StripHeadFacts();
    StripTailFacts();
  }

  lemma StripHeadFacts()
    ensures |StripHead| == 23 && StripHead[0] == '你' && StripHead[14] == '品'
    ensures StripHead[..22] == StripHeadText && '"' !in StripHeadText
  {
  }

  lemma StripTailFacts()
    ensures |StripTail| == 79 && StripTail[0] == '"' && StripTail[1..] == StripTailText
    ensures '"' !in StripTailText
  {
    StripTailQuoteFree();
  }

  lemma StripTailQuoteFree()
    ensures '"' !in StripTailText
  {
    CharFreeJoin('"', "，撰写广告文案，文案用于投放APP的开屏广告，", "因此文案内容要有创意，文字优美，朗朗上口，",
                 "能吸引人点击。请生成5个广告文案，", "每个文案控制在中文长度20个字以内");
  }

  /** Four texts without a character join into one without it. */
  lemma {:induction false} CharFreeJoin(c: char, a: string, b: string, d: string, e: string)
    requires c !in a && c !in b && c !in d && c !in e
    ensures c !in a + b + d + e
  {
  }

  /** The head and tail texts differ from the template the first prompt is
      built with, so stripping a generated prompt leaves it as it is —
      provided the input does not itself complete either text across its
      boundary with the template. */
  lemma {:induction false} GeneratedPromptUnchanged(input: string)
    requires !Occurs(input + "\"", StripHead)
    requires !Occurs("\"" + input, StripTail)
    ensures StripTemplate(Generator.Template(input)) == Generator.Template(input)
  {
    var head, tail := Generator.TemplateHead, Generator.TemplateTail;
    var t := Generator.Template(input);
    assert t == head + input + tail;
    TemplateFacts();
    StripFacts();
    forall i: nat ensures !OccursAt(t, StripHead, i) {
      NotAtAcrossHead(head, input, tail, StripHead, 14, i);
    }
    assert ReplaceFirst(t, StripHead, "") == t;
    forall i: nat ensures !OccursAt(t, StripTail, i) {
      NotAtAcrossTail(head, input, tail, StripTail, i);
    }
  }

  /** The converse of `GeneratedPromptUnchanged`: an input that completes
      the head or the tail text across its boundary with the template makes
      the stripping change the prompt. */
  lemma {:induction false} GeneratedPromptChanged(input: string)
    requires Occurs(input + "\"", StripHead) || Occurs("\"" + input, StripTail)
    ensures StripTemplate(Generator.Template(input)) != Generator.Template(input)
  {
    var t := Generator.Template(input);
    if Occurs(input + "\"", StripHead) {
      HeadCompletedInPrompt(input);
    } else {
      TailCompletedInPrompt(input);
    }
  }

  /** A head text completed by the template's closing quotation mark
      occurs in the prompt. */
  lemma {:induction false} HeadCompletedInPrompt(input: string)
    requires Occurs(input + "\"", StripHead)
    ensures Occurs(Generator.Template(input), StripHead)
  {
    var head, tail := Generator.TemplateHead, Generator.TemplateTail;
    TemplateTailFacts();
    var i: nat :| i <= |input| + 1 && OccursAt(input + "\"", StripHead, i);
    assert head + input + tail == head + (input + "\"") + tail[1..];
    OccursInside(head, input + "\"", tail[1..], StripHead, i);
  }

  /** A tail text completed by the template's opening quotation mark
      occurs in the prompt. */
  lemma {:induction false} TailCompletedInPrompt(input: string)
    requires Occurs("\"" + input, StripTail)
    ensures Occurs(Generator.Template(input), StripTail)
  {
    var head, tail := Generator.TemplateHead, Generator.TemplateTail;
    TemplateHeadFacts();
    var i: nat :| i <= |input| + 1 && OccursAt("\"" + input, StripTail, i);
    assert head + input + tail == head[..16] + ("\"" + input) + tail;
    OccursInside(head[..16], "\"" + input, tail, StripTail, i);
  }

  /** An occurrence in `x` is an occurrence in any string around `x`,
      shifted by what comes before. */
  lemma {:induction false} OccursInside(a: string, x: string, b: string, pat: string, i: nat)
    requires OccursAt(x, pat, i)
    ensures OccursAt(a + x + b, pat, |a| + i)
  {
    var t := a + x + b;
    assert t[|a|..|a| + |x|] == x;
    assert t[|a| + i..|a| + i + |pat|] == x[i..i + |pat|];
  }

  /** The input "炸鸡" is shown with the whole template around it: nothing
      is stripped. */
  lemma FirstPromptShownWhole()
    ensures StripTemplate(Generator.Template("炸鸡")) == Generator.Template("炸鸡")
  {
    assert !Occurs("炸鸡" + "\"", StripHead);
    assert !Occurs("\"" + "炸鸡", StripTail);
    GeneratedPromptUnchanged("炸鸡");
  }

  /** The input followed by the tail's first character occurs in
      `head + x + tail` right after `head`. */
  lemma {:induction false} CompletedByTail(head: string, x: string, tail: string)
    requires tail != []
    ensures OccursAt(head + x + tail, x + [tail[0]], |head|)
  {
    var t := head + x + tail;
    assert t[|head|..|head| + |x| + 1] == x + [tail[0]];
  }

  /** An input free of the head text is not enough for the prompt to come
      through unchanged: ending the input with the head text minus its
      quotation mark lets the template's own quotation mark complete it. */
  lemma HeadCompletedAcrossBoundary()
    ensures !Occurs(StripHeadText, StripHead)
    ensures StripTemplate(Generator.Template(StripHeadText)) != Generator.Template(StripHeadText)
  {
    var t := Generator.Template(StripHeadText);
    TemplateFacts();
    StripFacts();
    CompletedByTail(Generator.TemplateHead, StripHeadText, Generator.TemplateTail);
    assert StripHeadText + [Generator.TemplateTail[0]] == StripHead;
    assert OccursAt(t, StripHead, |Generator.TemplateHead|);
    var t1 := ReplaceFirst(t, StripHead, "");
    assert |t1| < |t|;
    assert |ReplaceFirst(t1, StripTail, "")| <= |t1|;
  }

  // ---------------------------------------------------------------------
  // The rendered HTML
  // ---------------------------------------------------------------------

  /** The `message` prop: a plain string for a logged message, or an
      accessor (here: its current value) for the pending reply. */
  datatype MessageProp = Text(text: string) | Accessor(current: string)

  /** `htmlString`: the accessor form and every string message except the
      one at index 0 are rendered as they are; the message at index 0 is
      rendered after the template stripping.  `index` is `None` when the
      prop is absent. */
  function HtmlString(render: string -> string, message: MessageProp, index: Option<int>): (html: string)
    ensures message.Accessor? ==> html == render(message.current)
    ensures message.Text? && index != Some(0) ==> html == render(message.text)
    ensures message.Text? && index == Some(0) ==> html == render(StripTemplate(message.text))
  {
    match message
    case Accessor(current) => render(current)
    case Text(text) =>
      if index == Some(0) then render(StripTemplate(text)) else render(text)
  }
}
