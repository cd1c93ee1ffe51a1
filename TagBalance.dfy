/**
 * The tag-balancing pass autoCorrectMissingTags of 494003/ideal2/ideal2.go.
 * The XML decoder is abstracted as the sequence of items it hands out: a
 * token, or the error that ends the pass (end of input included). Start
 * tags are written back without attributes and pushed on a stack, end tags
 * are written only when they close the innermost open element, character
 * data is copied, other tokens are dropped, and the tags still open at the
 * end are closed innermost first.
 */
module TagBalance {
  import opened Wrappers

  datatype Attr = Attr(name: string, value: string)

  /** The decoder's token kinds; only the local part of a name is kept. */
  datatype Token =
    | StartElement(name: string, attrs: seq<Attr>)
    | EndElement(name: string)
    | CharData(text: string)
    | Comment(text: string)
    | ProcInst(target: string, inst: string)
    | Directive(text: string)

  /** What one call of decoder.Token() yields. */
  datatype Item = Tok(token: Token) | DecodeError

  /** What the pass writes: an open tag, a close tag or verbatim text. */
  datatype Event = Open(name: string) | Close(name: string) | Text(text: string)

  function RenderEvent(e: Event): string {
    match e
    case Open(n) => "<" + n + ">"
    case Close(n) => "</" + n + ">"
    case Text(t) => t
  }

  /** The text written to the builder for a sequence of events. */
  function Render(events: seq<Event>): string
    decreases |events|
  {
    if events == [] then "" else RenderEvent(events[0]) + Render(events[1..])
  }

  lemma {:induction false} RenderAppend(a: seq<Event>, b: seq<Event>)
    ensures Render(a + b) == Render(a) + Render(b)
    decreases |a|
  {
    if a == [] {
      assert a + b == b;
    } else {
      assert (a + b)[1..] == a[1..] + b;
      RenderAppend(a[1..], b);
    }
  }

  /** Writing one more event appends its text. */
  lemma RenderSnoc(events: seq<Event>, e: Event)
    ensures Render(events + [e]) == Render(events) + RenderEvent(e)
  {
    RenderAppend(events, [e]);
    assert [e][1..] == [];
  }

  /** The state of the token loop: events written, open tags, and whether it has stopped. */
  datatype Scanned = Scanned(events: seq<Event>, stack: seq<string>, stopped: bool)

  /** One iteration of the token loop. */
  function Feed(s: Scanned, item: Item): (r: Scanned)
    ensures s.stopped ==> r == s
    ensures |s.events| <= |r.events| <= |s.events| + 1 && r.events[..|s.events|] == s.events
    ensures |s.stack| - 1 <= |r.stack| <= |s.stack| + 1
  {
    if s.stopped then s
    else
      match item
      case DecodeError => s.(stopped := true)
      case Tok(t) =>
        match t
        case StartElement(n, _) => Scanned(s.events + [Open(n)], s.stack + [n], false)
        case EndElement(n) =>
          if |s.stack| > 0 && s.stack[|s.stack| - 1] == n
          then Scanned(s.events + [Close(n)], s.stack[..|s.stack| - 1], false)
          else s
        case CharData(text) => s.(events := s.events + [Text(text)])
        case _ => s
  }

  /** The token loop over a prefix of the decoder's items. */
  function Scan(items: seq<Item>): (r: Scanned)
    ensures |r.events| <= |items| && |r.stack| <= |items|
    decreases |items|
  {
    if items == [] then Scanned([], [], false)
    else Feed(Scan(items[..|items| - 1]), items[|items| - 1])
  }

  /** The closing loop: the open tags closed from the innermost out. */
  function Closes(stack: seq<string>): (r: seq<Event>)
    ensures |r| == |stack|
    ensures forall k | 0 <= k < |stack| :: r[k] == Close(stack[|stack| - 1 - k])
  {
    seq(|stack|, k requires 0 <= k < |stack| => Close(stack[|stack| - 1 - k]))
  }

  /** All the events the pass writes. */
  function Correct(items: seq<Item>): seq<Event> {
    var s := Scan(items);
    s.events + Closes(s.stack)
  }

  // ---------------------------------------------------------------------
  // Nesting of events

  /**
   * Replays events against a stack of open tags: None as soon as a close
   * tag does not close the innermost open element, else the final stack.
   */
  function Nest(events: seq<Event>, stack: seq<string>): Option<seq<string>>
    decreases |events|
  {
    if events == [] then Some(stack)
    else
      match events[0]
      case Open(n) => Nest(events[1..], stack + [n])
      case Close(n) =>
        if |stack| > 0 && stack[|stack| - 1] == n then Nest(events[1..], stack[..|stack| - 1])
        else None
      case Text(_) => Nest(events[1..], stack)
  }

  /** Every close tag closes the innermost open element, and none is left open. */
  predicate Balanced(events: seq<Event>) {
    Nest(events, []) == Some([])
  }

  lemma {:induction false} NestAppend(a: seq<Event>, b: seq<Event>, stack: seq<string>)
    ensures Nest(a + b, stack) == match Nest(a, stack) case None => None case Some(s) => Nest(b, s)
    decreases |a|
  {
    if a == [] {
      assert a + b == b;
    } else {
      assert (a + b)[0] == a[0] && (a + b)[1..] == a[1..] + b;
      match a[0]
      case Open(n) => NestAppend(a[1..], b, stack + [n]);
      case Close(n) =>
        if |stack| > 0 && stack[|stack| - 1] == n {
          NestAppend(a[1..], b, stack[..|stack| - 1]);
        }
      case Text(_) => NestAppend(a[1..], b, stack);
    }
  }

  /** The events of the token loop replay to exactly its stack of open tags. */
  lemma {:induction false} ScanNests(items: seq<Item>)
    ensures Nest(Scan(items).events, []) == Some(Scan(items).stack)
    decreases |items|
  {
    if items != [] {
      var init := items[..|items| - 1];
      var s := Scan(init);
      ScanNests(init);
      var s' := Feed(s, items[|items| - 1]);
      if s'.events != s.events {
        var added := s'.events[|s.events|..];
        assert s'.events == s.events + added;
        NestAppend(s.events, added, []);
      }
    }
  }

  /** Closing the open tags innermost first empties the stack. */
  lemma {:induction false} ClosesNest(stack: seq<string>)
    ensures Nest(Closes(stack), stack) == Some([])
    decreases |stack|
  {
    if stack != [] {
      var init := stack[..|stack| - 1];
      assert Closes(stack) == [Close(stack[|stack| - 1])] + Closes(init);
      assert Closes(stack)[1..] == Closes(init);
      ClosesNest(init);
    }
  }

  /** The output of the pass is always balanced. */
  lemma CorrectBalanced(items: seq<Item>)
    ensures Balanced(Correct(items))
  {
    var s := Scan(items);
    ScanNests(items);
    NestAppend(s.events, Closes(s.stack), []);
    ClosesNest(s.stack);
  }

  // ---------------------------------------------------------------------
  // The first decoder error ends the pass

  lemma {:induction false} ScanStopped(p: seq<Item>, q: seq<Item>)
    requires Scan(p).stopped
    ensures Scan(p + q) == Scan(p)
    decreases |q|
  {
    if q == [] {
      assert p + q == p;
    } else {
      var q' := q[..|q| - 1];
      assert (p + q)[..|p + q| - 1] == p + q';
      ScanStopped(p, q');
    }
  }

  /** Whatever follows the first decoder error is ignored. */
  lemma StopsAtError(p: seq<Item>, q: seq<Item>)
    ensures Correct(p + [DecodeError] + q) == Correct(p)
  {
    var pe := p + [DecodeError];
    assert pe[..|pe| - 1] == p;
    ScanStopped(pe, q);
  }

  /**
   * An end tag that does not close the innermost open element is skipped:
   * nothing is written and the stack stays as it was.
   */
  lemma MismatchSkipped(p: seq<Item>, n: string)
    requires var st := Scan(p).stack; st == [] || st[|st| - 1] != n
    ensures Scan(p + [Tok(EndElement(n))]) == Scan(p)
  {
    assert (p + [Tok(EndElement(n))])[..|p|] == p;
  }

  /** A start tag is written without its attributes and pushed. */
  lemma StartPushed(p: seq<Item>, n: string, attrs: seq<Attr>)
    requires !Scan(p).stopped
    ensures Scan(p + [Tok(StartElement(n, attrs))]).events == Scan(p).events + [Open(n)]
    ensures Scan(p + [Tok(StartElement(n, attrs))]).stack == Scan(p).stack + [n]
  {
    assert (p + [Tok(StartElement(n, attrs))])[..|p|] == p;
  }

  /** An end tag that closes the innermost open element is written and popped. */
  lemma MatchingEndPopped(p: seq<Item>, n: string)
    requires !Scan(p).stopped
    requires var st := Scan(p).stack; st != [] && st[|st| - 1] == n
    ensures Scan(p + [Tok(EndElement(n))]).events == Scan(p).events + [Close(n)]
    ensures Scan(p + [Tok(EndElement(n))]).stack == Scan(p).stack[..|Scan(p).stack| - 1]
  {
    assert (p + [Tok(EndElement(n))])[..|p|] == p;
  }

  /** Character data is copied as it is, and the stack stays as it was. */
  lemma CharDataCopied(p: seq<Item>, text: string)
    requires !Scan(p).stopped
    ensures Scan(p + [Tok(CharData(text))]) == Scan(p).(events := Scan(p).events + [Text(text)])
  {
    assert (p + [Tok(CharData(text))])[..|p|] == p;
  }

  // ---------------------------------------------------------------------
  // Well-formed input is left as it is

  /** The items a decoder yields for a sequence of events, without attributes. */
  function Items(events: seq<Event>): (r: seq<Item>)
    ensures |r| == |events|
  {
    seq(|events|, k requires 0 <= k < |events| =>
      match events[k]
      case Open(n) => Tok(StartElement(n, []))
      case Close(n) => Tok(EndElement(n))
      case Text(t) => Tok(CharData(t)))
  }

  lemma {:induction false} ScanNested(events: seq<Event>, stack: seq<string>)
    requires Nest(events, []) == Some(stack)
    ensures Scan(Items(events)) == Scanned(events, stack, false)
    decreases |events|
  {
    if events != [] {
      var init := events[..|events| - 1];
      var last := events[|events| - 1];
      assert events == init + [last];
      NestAppend(init, [last], []);
      var s0 := Nest(init, []).value;
      ScanNested(init, s0);
      var items := Items(events);
      assert items[..|items| - 1] == Items(init);
      assert items[|items| - 1] == Items([last])[0];
      FeedEvent(init, s0, last);
    }
  }

  /** Feeding the item of an event that nests on the stack writes it and updates the stack as Nest does. */
  lemma FeedEvent(events: seq<Event>, stack: seq<string>, e: Event)
    requires Nest([e], stack).Some?
    ensures Feed(Scanned(events, stack, false), Items([e])[0]) == Scanned(events + [e], Nest([e], stack).value, false)
  {
    assert [e][1..] == [];
  }

  /** A balanced input without attributes comes out exactly as it went in. */
  lemma BalancedUnchanged(events: seq<Event>)
    requires Balanced(events)
    ensures Correct(Items(events)) == events
  {
    ScanNested(events, []);
  }

  /** Running the pass on its own output changes nothing. */
  lemma CorrectIdempotent(items: seq<Item>)
    ensures Correct(Items(Correct(items))) == Correct(items)
  {
    CorrectBalanced(items);
    BalancedUnchanged(Correct(items));
  }

  // ---------------------------------------------------------------------
  // The loop

  /** The token loop: the tags left open and the text written so far. */
  method ScanTokens(items: seq<Item>) returns (openTags: seq<string>, corrected: string)
    ensures openTags == Scan(items).stack
    ensures corrected == Render(Scan(items).events)
  {
    openTags := [];
    corrected := "";
    ghost var events: seq<Event> := [];
    var i := 0;
    while i < |items|
      invariant 0 <= i <= |items|
      invariant Scan(items[..i]) == Scanned(events, openTags, false)
      invariant corrected == Render(events)
    {
      ScanNext(items, i);
      if items[i].DecodeError? {
        break;
      }
      match items[i].token {
        case StartElement(n, _) =>
          openTags := openTags + [n];
          RenderSnoc(events, Open(n));
          events := events + [Open(n)];
          corrected := corrected + ("<" + n + ">");
        case EndElement(n) =>
          if |openTags| > 0 && openTags[|openTags| - 1] == n {
            openTags := openTags[..|openTags| - 1];
            RenderSnoc(events, Close(n));
            events := events + [Close(n)];
            corrected := corrected + ("</" + n + ">");
          }
        case CharData(text) =>
          RenderSnoc(events, Text(text));
          events := events + [Text(text)];
          corrected := corrected + text;
        case _ =>
      }
      i := i + 1;
    }
    if i < |items| {
      ScanStopped(items[..i + 1], items[i + 1..]);
      assert items[..i + 1] + items[i + 1..] == items;
    } else {
      assert items[..i] == items;
    }
  }

  /** The loop over one more item feeds that item to the state so far. */
  lemma ScanNext(items: seq<Item>, i: nat)
    requires i < |items|
    ensures Scan(items[..i + 1]) == Feed(Scan(items[..i]), items[i])
  {
    assert items[..i + 1][..i] == items[..i];
  }

  /** Closing one more, outer, tag appends its close tag. */
  lemma ClosesStep(stack: seq<string>, j: int)
    requires 0 < j <= |stack|
    ensures Closes(stack[j - 1..]) == Closes(stack[j..]) + [Close(stack[j - 1])]
  {
    var inner := Closes(stack[j..]);
    var outer := Closes(stack[j - 1..]);
    forall k | 0 <= k < |inner| ensures outer[k] == inner[k] {
      assert stack[j - 1..][|stack| - j - k] == stack[j..][|stack| - j - 1 - k];
    }
    assert outer[|inner|] == Close(stack[j - 1]);
  }

  /** One more iteration of the closing loop keeps its invariant. */
  lemma CloseOneMore(corrected: string, stack: seq<string>, j: int, out: string)
    requires 0 < j <= |stack|
    requires out == corrected + Render(Closes(stack[j..]))
    ensures out + ("</" + stack[j - 1] + ">") == corrected + Render(Closes(stack[j - 1..]))
  {
    ClosesStep(stack, j);
    RenderSnoc(Closes(stack[j..]), Close(stack[j - 1]));
  }

  /** The closing loop, appending a close tag per open tag, innermost first. */
  method CloseOpenTags(openTags: seq<string>, corrected: string) returns (out: string)
    ensures out == corrected + Render(Closes(openTags))
  {
    out := corrected;
    var j := |openTags|;
    assert Closes(openTags[j..]) == [];
    while j > 0
      invariant 0 <= j <= |openTags|
      invariant out == corrected + Render(Closes(openTags[j..]))
    {
      CloseOneMore(corrected, openTags, j, out);
      out := out + ("</" + openTags[j - 1] + ">");
      j := j - 1;
    }
    assert openTags[0..] == openTags;
  }

  /** autoCorrectMissingTags */
  method AutoCorrectMissingTags(items: seq<Item>) returns (out: string)
    ensures out == Render(Correct(items))
  {
    var openTags, corrected := ScanTokens(items);
    out := CloseOpenTags(openTags, corrected);
    RenderAppend(Scan(items).events, Closes(openTags));
  }
}
