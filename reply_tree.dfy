/**
 * The reply side of the device protocol: the tree a parsed reply becomes
 * under xml2js's conventions, and the search for the first
 * `<rpc-reply ...</rpc-reply>` fragment in free-form shell output.
 */
module ReplyTree {
  import opened Options
  import opened JsString

  /**
   * A parsed XML value under xml2js's default conventions: a text-only
   * element becomes its text, any other element an object whose every key
   * holds a list of children. The list is never empty, so it is kept as its
   * first entry and the rest, and `node[key][0]` is always defined.
   */
  datatype Node = Text(text: string) | Element(fields: map<string, Children>)
  datatype Children = Children(first: Node, rest: seq<Node>)

  /** A parsed document: the root element's name and its (unwrapped) value. */
  datatype Document = Document(rootName: string, root: Node)

  /** What the XML parser makes of a text: a document, or a parse error with its message. */
  datatype Parsed = Parsed(doc: Document) | Malformed(message: string)

  /** `node[key][0]`: the first child under `key`, absent when `node` has no such key (or is text). */
  function Child(node: Node, key: string): (r: Option<Node>)
    ensures r.Some? <==> node.Element? && key in node.fields
    ensures r.Some? ==> node.Element? && key in node.fields && r.value == node.fields[key].first
  {
    if node.Element? && key in node.fields then Some(node.fields[key].first) else None
  }

  /** `parsed[name]`: the root's value when the root element has that name. */
  function Root(doc: Document, name: string): (r: Option<Node>)
    ensures r.Some? <==> doc.rootName == name
    ensures r.Some? ==> r.value == doc.root
  {
    if doc.rootName == name then Some(doc.root) else None
  }

  const ReplyOpen := "<rpc-reply"
  const ReplyClose := "</rpc-reply>"

  /** Half-open bounds of a fragment in a text. */
  datatype Span = Span(start: nat, end: nat)

  /** An opening `<rpc-reply` at `i` and a closing `</rpc-reply>` at `j`, after the opening text. */
  predicate ReplyAt(s: string, i: nat, j: nat) {
    OccursAt(s, ReplyOpen, i) && i + |ReplyOpen| <= j && OccursAt(s, ReplyClose, j)
  }

  /**
   * What `data.match(/<rpc-reply[\s\S]*?<\/rpc-reply>/)` locates: the match
   * starts at the first opening tag and, the repetition being lazy, ends with
   * the first closing tag after it; there is no match exactly when no opening
   * tag is followed by a closing one.
   */
  function FindRpcReply(s: string): (r: Option<Span>)
    ensures r.None? <==> forall i, j :: !ReplyAt(s, i, j)
    ensures r.Some? ==> r.value.start + |ReplyOpen| + |ReplyClose| <= r.value.end <= |s|
                        && ReplyAt(s, r.value.start, r.value.end - |ReplyClose|)
    ensures r.Some? ==> forall k: nat :: k < r.value.start ==> !OccursAt(s, ReplyOpen, k)
    ensures r.Some? ==> forall k :: r.value.start + |ReplyOpen| <= k < r.value.end - |ReplyClose|
                                    ==> !OccursAt(s, ReplyClose, k)
  {
    match FindFrom(s, ReplyOpen, 0)
    case None => None
    case Some(i) =>
      match FindFrom(s, ReplyClose, i + |ReplyOpen|)
      case None =>
        assert forall i', j :: ReplyAt(s, i', j) ==> i <= i' && i + |ReplyOpen| <= j;
        None
      case Some(j) =>
        assert ReplyAt(s, i, j);
        Some(Span(i, j + |ReplyClose|))
  }

  /**
   * The matched fragment itself, `rpcReply[0]`: the text of the span the
   * match locates, which opens with `<rpc-reply` and closes with `</rpc-reply>`.
   */
  function MatchRpcReply(s: string): (r: Option<string>)
    ensures r.None? <==> forall i, j :: !ReplyAt(s, i, j)
    ensures r.Some? ==> |ReplyOpen| + |ReplyClose| <= |r.value|
                        && OccursAt(r.value, ReplyOpen, 0)
                        && OccursAt(r.value, ReplyClose, |r.value| - |ReplyClose|)
    ensures r.Some? ==> exists a: nat, b: nat :: SliceAt(s, r.value, a, b)
    ensures r.Some? ==> FindRpcReply(s).Some?
                        && r.value == s[FindRpcReply(s).value.start..FindRpcReply(s).value.end]
  {
    match FindRpcReply(s)
    case None => None
    case Some(sp) =>
      var f := s[sp.start..sp.end];
      FragmentShape(s, f, sp.start, sp.end);
      Some(f)
  }

  /** `f` is the slice `s[a..b]`. */
  predicate SliceAt(s: string, f: string, a: nat, b: nat) {
    a <= b <= |s| && f == s[a..b]
  }

  /** The text from an opening tag through the end of a closing tag after it opens and closes with those tags. */
  lemma FragmentShape(s: string, f: string, start: nat, end: nat)
    requires start + |ReplyOpen| + |ReplyClose| <= end <= |s| && ReplyAt(s, start, end - |ReplyClose|)
    requires f == s[start..end]
    ensures |ReplyOpen| + |ReplyClose| <= |f|
    ensures OccursAt(f, ReplyOpen, 0) && OccursAt(f, ReplyClose, |f| - |ReplyClose|)
    ensures SliceAt(s, f, start, end)
  {
    OccursShifted(s, start, f, ReplyOpen, start);
    OccursShifted(s, start, f, ReplyClose, end - |ReplyClose|);
  }

  /** Where `t` sits in `s` at `i`, an occurrence within `t` is an occurrence in `s`, shifted by `i`. */
  lemma OccursShifted(s: string, i: nat, t: string, p: string, k: nat)
    requires i + |t| <= |s| && s[i..i + |t|] == t
    requires i <= k && k + |p| <= i + |t|
    ensures OccursAt(s, p, k) <==> OccursAt(t, p, k - i)
  {
    SliceOfSlice(s, i, i + |t|, k - i, k - i + |p|);
  }

  /**
   * The match is pinned down by its ends: an opening tag with no opening tag
   * before it, and the first closing tag after it.
   */
  lemma FindRpcReplyAt(s: string, i: nat, j: nat)
    requires ReplyAt(s, i, j)
    requires forall k: nat :: k < i ==> !OccursAt(s, ReplyOpen, k)
    requires forall k :: i + |ReplyOpen| <= k < j ==> !OccursAt(s, ReplyClose, k)
    ensures FindRpcReply(s) == Some(Span(i, j + |ReplyClose|))
  {
    assert OccursAt(s, ReplyOpen, i) && OccursAt(s, ReplyClose, j);
  }

  /**
   * Where the output holds a reply, the fragment is that reply: shell text
   * before it that holds no opening tag is skipped, and text after the first
   * closing tag is not part of it.
   */
  lemma MatchFindsEmbeddedReply(before: string, body: string, after: string)
    requires forall k: nat :: !OccursAt(before + ReplyOpen, ReplyOpen, k) || k == |before|
    requires forall k: nat :: !OccursAt(ReplyOpen + body + ReplyClose, ReplyClose, k) || k == |ReplyOpen + body|
    ensures MatchRpcReply(before + (ReplyOpen + body + ReplyClose) + after) == Some(ReplyOpen + body + ReplyClose)
  {
    var f := ReplyOpen + body + ReplyClose;
    var head := before + ReplyOpen;
    var s := before + f + after;
    var i, j := |before|, |before| + |ReplyOpen| + |body|;
    var e := j + |ReplyClose|;
    assert s[i..e] == f;
    assert s[0..|head|] == head;
    OccursShifted(s, 0, head, ReplyOpen, i);
    OccursShifted(s, i, f, ReplyClose, j);
    forall k: nat | k < i ensures !OccursAt(s, ReplyOpen, k) {
      OccursShifted(s, 0, head, ReplyOpen, k);
    }
    forall k | i + |ReplyOpen| <= k < j ensures !OccursAt(s, ReplyClose, k) {
      OccursShifted(s, i, f, ReplyClose, k);
    }
    FindRpcReplyAt(s, i, j);
  }
}
