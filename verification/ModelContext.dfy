/**
 Model context blocks of `src/model_context.rs`: fragments are merged into the last user request
 in place, and looked up again from the end of the conversation.
 */
module ModelContext {
  import opened Prelude

  datatype Kind = Environment | ExecutionMode | ProtocolPromptSources | SkillListing | RetrievedMemory

  /** The string under `kind`: one of the five known names, or any other one. */
  datatype Tag = Known(kind: Kind) | Unknown(name: string)

  /** A content block; `rest` stands for the fields no code here looks at. */
  datatype Block =
    | ContextBlock(tag: Option<Tag>, text: Option<string>, rest: string)
    | TextBlock(text: Option<string>, rest: string)
    | OtherBlock(json: string)

  datatype Content = Blocks(blocks: seq<Block>) | Text(text: string) | OtherContent(json: string)

  datatype Message = Message(role: string, content: Content)

  datatype Fragment = Fragment(kind: Kind, text: string)

  function KindOf(b: Block): Option<Kind> {
    if b.ContextBlock? && b.tag.Some? && b.tag.value.Known? then Some(b.tag.value.kind) else None
  }

  function BlockOf(f: Fragment): Block {
    ContextBlock(Some(Known(f.kind)), Some(f.text), "")
  }

  function KindName(kind: Kind): string {
    match kind
    case Environment => "environment"
    case ExecutionMode => "execution_mode"
    case ProtocolPromptSources => "protocol_prompt_sources"
    case SkillListing => "skill_listing"
    case RetrievedMemory => "retrieved_memory"
  }

  function ParseKind(name: string): Tag {
    if name == "environment" then Known(Environment)
    else if name == "execution_mode" then Known(ExecutionMode)
    else if name == "protocol_prompt_sources" then Known(ProtocolPromptSources)
    else if name == "skill_listing" then Known(SkillListing)
    else if name == "retrieved_memory" then Known(RetrievedMemory)
    else Unknown(name)
  }

  /** A written kind is read back as itself, and only its own name is read as a kind. */
  lemma KindNamesRoundTrip(kind: Kind, name: string)
    ensures ParseKind(KindName(kind)) == Known(kind)
    ensures ParseKind(name) == Known(kind) ==> name == KindName(kind)
  {
  }

  /** The names as they are written. */
  lemma KindNamesAre()
    ensures ParseKind("environment") == Known(Environment)
    ensures ParseKind("execution_mode") == Known(ExecutionMode)
    ensures ParseKind("protocol_prompt_sources") == Known(ProtocolPromptSources)
    ensures ParseKind("skill_listing") == Known(SkillListing)
    ensures ParseKind("retrieved_memory") == Known(RetrievedMemory)
  {
  }

  // ---------- Buckets and the stable sort ----------

  /** The blocks of one kind, or those of no known kind, in order. */
  function Of(blocks: seq<Block>, kind: Option<Kind>): seq<Block> {
    if blocks == [] then []
    else if KindOf(blocks[0]) == kind then [blocks[0]] + Of(blocks[1..], kind)
    else Of(blocks[1..], kind)
  }

  /** The sort key: context blocks in the order of their kinds, then everything else. */
  function Rank(kind: Option<Kind>): nat {
    match kind
    case Some(Environment) => 0
    case Some(ExecutionMode) => 1
    case Some(ProtocolPromptSources) => 2
    case Some(SkillListing) => 3
    case Some(RetrievedMemory) => 4
    case None => 255
  }

  predicate ByRank(kinds: seq<Option<Kind>>) {
    forall i, j | 0 <= i < j < |kinds| :: Rank(kinds[i]) < Rank(kinds[j])
  }

  function KindsInOrder(): (kinds: seq<Option<Kind>>)
    ensures ByRank(kinds) && forall kind :: kind in kinds
  {
    var kinds := [Some(Environment), Some(ExecutionMode), Some(ProtocolPromptSources), Some(SkillListing),
                  Some(RetrievedMemory), None];
    assert forall kind: Option<Kind> :: kind in kinds by {
      forall kind: Option<Kind> ensures kind in kinds {
        assert kind == kinds[if Rank(kind) == 255 then 5 else Rank(kind)];
      }
    }
    kinds
  }

  function Bucketed(blocks: seq<Block>, kinds: seq<Option<Kind>>): seq<Block> {
    if kinds == [] then [] else Of(blocks, kinds[0]) + Bucketed(blocks, kinds[1..])
  }

  /** Sorting stably by a key of a few values lists one bucket after the other. */
  function Sorted(blocks: seq<Block>): seq<Block> {
    Bucketed(blocks, KindsInOrder())
  }

  lemma BucketedThree(
    blocks: seq<Block>, a: Option<Kind>, b: Option<Kind>, c: Option<Kind>, rest: seq<Option<Kind>>)
    ensures Bucketed(blocks, [a, b, c] + rest) == Of(blocks, a) + Of(blocks, b) + Of(blocks, c) + Bucketed(blocks, rest)
  {
    var kinds := [a, b, c] + rest;
    assert kinds[1..][1..][1..] == rest;
    assert Bucketed(blocks, kinds[1..][1..]) == Of(blocks, c) + Bucketed(blocks, rest);
    assert Bucketed(blocks, kinds[1..]) == Of(blocks, b) + Bucketed(blocks, kinds[1..][1..]);
  }

  lemma SortedIs(blocks: seq<Block>)
    ensures Sorted(blocks)
            == Of(blocks, Some(Environment)) + Of(blocks, Some(ExecutionMode))
               + Of(blocks, Some(ProtocolPromptSources)) + Of(blocks, Some(SkillListing))
               + Of(blocks, Some(RetrievedMemory)) + Of(blocks, None)
  {
    var k := KindsInOrder();
    BucketedThree(blocks, k[0], k[1], k[2], [k[3], k[4], k[5]]);
    BucketedThree(blocks, k[3], k[4], k[5], []);
    assert [k[3], k[4], k[5]] + [] == [k[3], k[4], k[5]];
    assert [k[0], k[1], k[2]] + [k[3], k[4], k[5]] == k;
  }

  lemma {:induction false} OfConcat(a: seq<Block>, b: seq<Block>, kind: Option<Kind>)
    ensures Of(a + b, kind) == Of(a, kind) + Of(b, kind)
  {
    if a == [] {
      assert a + b == b;
    } else {
      OfConcat(a[1..], b, kind);
      assert (a + b)[1..] == a[1..] + b;
    }
  }

  lemma {:induction false} OfOf(blocks: seq<Block>, kind: Option<Kind>, other: Option<Kind>)
    ensures Of(Of(blocks, kind), other) == if kind == other then Of(blocks, kind) else []
    ensures forall b | b in Of(blocks, kind) :: KindOf(b) == kind
  {
    if blocks != [] {
      OfOf(blocks[1..], kind, other);
      assert ([blocks[0]] + Of(blocks[1..], kind))[1..] == Of(blocks[1..], kind);
    }
  }

  lemma {:induction false} BucketedKeeps(blocks: seq<Block>, kinds: seq<Option<Kind>>, kind: Option<Kind>)
    requires ByRank(kinds)
    ensures Of(Bucketed(blocks, kinds), kind) == if kind in kinds then Of(blocks, kind) else []
  {
    if kinds != [] {
      BucketedKeeps(blocks, kinds[1..], kind);
      OfConcat(Of(blocks, kinds[0]), Bucketed(blocks, kinds[1..]), kind);
      OfOf(blocks, kinds[0], kind);
      assert kind in kinds <==> kind == kinds[0] || kind in kinds[1..];
    }
  }

  /** Sorting keeps every bucket as it is, in content and in order. */
  lemma SortedKeepsBuckets(blocks: seq<Block>, kind: Option<Kind>)
    ensures Of(Sorted(blocks), kind) == Of(blocks, kind)
  {
    BucketedKeeps(blocks, KindsInOrder(), kind);
  }

  predicate Ascending(blocks: seq<Block>) {
    forall i, j | 0 <= i < j < |blocks| :: Rank(KindOf(blocks[i])) <= Rank(KindOf(blocks[j]))
  }

  lemma {:induction false} BucketedAscends(blocks: seq<Block>, kinds: seq<Option<Kind>>)
    requires ByRank(kinds)
    ensures Ascending(Bucketed(blocks, kinds))
    ensures forall b | b in Bucketed(blocks, kinds) :: KindOf(b) in kinds
  {
    if kinds != [] {
      var first, rest := Of(blocks, kinds[0]), Bucketed(blocks, kinds[1..]);
      BucketedAscends(blocks, kinds[1..]);
      OfOf(blocks, kinds[0], kinds[0]);
      assert kinds == [kinds[0]] + kinds[1..];
      forall i, j | 0 <= i < j < |first + rest|
        ensures Rank(KindOf((first + rest)[i])) <= Rank(KindOf((first + rest)[j]))
      {
        assert i < |first| ==> (first + rest)[i] in first;
        assert if j < |first| then (first + rest)[j] in first else (first + rest)[j] in rest;
      }
    }
  }

  lemma SortedAscends(blocks: seq<Block>)
    ensures Ascending(Sorted(blocks))
  {
    BucketedAscends(blocks, KindsInOrder());
  }

  // ---------- The upsert ----------

  predicate Supplied(fragments: seq<Fragment>, kind: Option<Kind>) {
    exists f | f in fragments :: Some(f.kind) == kind
  }

  function FragmentBlocks(fragments: seq<Fragment>): seq<Block> {
    if fragments == [] then [] else [BlockOf(fragments[0])] + FragmentBlocks(fragments[1..])
  }

  /** The blocks that stay: those of no supplied kind. */
  function Retained(blocks: seq<Block>, fragments: seq<Fragment>): seq<Block> {
    if blocks == [] then []
    else if Supplied(fragments, KindOf(blocks[0])) then Retained(blocks[1..], fragments)
    else [blocks[0]] + Retained(blocks[1..], fragments)
  }

  function ItemsOf(content: Content): seq<Block> {
    match content
    case Blocks(blocks) => blocks
    case Text(text) => [TextBlock(Some(text), "")]
    case OtherContent(json) => [TextBlock(Some(json), "")]
  }

  function Merged(content: Content, fragments: seq<Fragment>): Content {
    Blocks(Sorted(FragmentBlocks(fragments) + Retained(ItemsOf(content), fragments)))
  }

  predicate HasText(b: Block) {
    b.TextBlock? && b.text.Some? && !Blank(b.text.value)
  }

  predicate IsUserTextRequest(m: Message) {
    match m.content
    case Text(text) => !Blank(text)
    case Blocks(blocks) => exists b | b in blocks :: HasText(b)
    case OtherContent(_) => false
  }

  predicate IsRequest(m: Message) {
    m.role == "user" && IsUserTextRequest(m)
  }

  /** The position of the last user request. */
  function LastRequest(messages: seq<Message>): Option<nat> {
    if messages == [] then None
    else if IsRequest(messages[|messages| - 1]) then Some(|messages| - 1)
    else LastRequest(messages[..|messages| - 1])
  }

  lemma {:induction false} LastRequestIsLast(messages: seq<Message>)
    ensures match LastRequest(messages)
            case None => forall i | 0 <= i < |messages| :: !IsRequest(messages[i])
            case Some(k) => k < |messages| && IsRequest(messages[k]) &&
                            forall i | k < i < |messages| :: !IsRequest(messages[i])
  {
    if messages != [] && !IsRequest(messages[|messages| - 1]) {
      LastRequestIsLast(messages[..|messages| - 1]);
    }
  }

  function Upserted(messages: seq<Message>, fragments: seq<Fragment>): seq<Message> {
    LastRequestIsLast(messages);
    var at := LastRequest(messages);
    if fragments == [] || at.None? then messages
    else
      var m := messages[at.value];
      messages[at.value := m.(content := Merged(m.content, fragments))]
  }

  lemma {:induction false} OfRetained(blocks: seq<Block>, fragments: seq<Fragment>, kind: Option<Kind>)
    ensures Of(Retained(blocks, fragments), kind) == if Supplied(fragments, kind) then [] else Of(blocks, kind)
  {
    if blocks != [] {
      OfRetained(blocks[1..], fragments, kind);
      var rest := Retained(blocks[1..], fragments);
      assert ([blocks[0]] + rest)[1..] == rest;
    }
  }

  lemma {:induction false} OfFragments(fragments: seq<Fragment>, kind: Option<Kind>)
    requires !Supplied(fragments, kind)
    ensures Of(FragmentBlocks(fragments), kind) == []
  {
    if fragments != [] {
      var rest := FragmentBlocks(fragments[1..]);
      forall f | f in fragments[1..] ensures Some(f.kind) != kind {
        assert f in fragments;
      }
      OfFragments(fragments[1..], kind);
      assert ([BlockOf(fragments[0])] + rest)[1..] == rest;
      assert fragments[0] in fragments;
    }
  }

  /**
   Every bucket of a merged message: a supplied kind holds exactly the supplied fragments in
   their order, every other bucket is what it was.
   */
  lemma MergedBuckets(content: Content, fragments: seq<Fragment>, kind: Option<Kind>)
    ensures Of(Merged(content, fragments).blocks, kind)
            == if Supplied(fragments, kind) then Of(FragmentBlocks(fragments), kind) else Of(ItemsOf(content), kind)
  {
    var f, kept := FragmentBlocks(fragments), Retained(ItemsOf(content), fragments);
    SortedKeepsBuckets(f + kept, kind);
    OfConcat(f, kept, kind);
    OfRetained(ItemsOf(content), fragments, kind);
    if !Supplied(fragments, kind) {
      OfFragments(fragments, kind);
    }
  }

  lemma {:induction false} SameBucketsSortAlike(a: seq<Block>, b: seq<Block>, kinds: seq<Option<Kind>>)
    requires forall kind :: Of(a, kind) == Of(b, kind)
    ensures Bucketed(a, kinds) == Bucketed(b, kinds)
  {
    if kinds != [] {
      SameBucketsSortAlike(a, b, kinds[1..]);
    }
  }

  lemma MergeIsIdempotent(content: Content, fragments: seq<Fragment>)
    ensures Merged(Merged(content, fragments), fragments) == Merged(content, fragments)
  {
    var once := Merged(content, fragments);
    var f := FragmentBlocks(fragments);
    var a, b := f + Retained(ItemsOf(content), fragments), f + Retained(once.blocks, fragments);
    forall kind ensures Of(a, kind) == Of(b, kind) {
      OfConcat(f, Retained(ItemsOf(content), fragments), kind);
      OfConcat(f, Retained(once.blocks, fragments), kind);
      OfRetained(ItemsOf(content), fragments, kind);
      OfRetained(once.blocks, fragments, kind);
      MergedBuckets(content, fragments, kind);
    }
    SameBucketsSortAlike(a, b, KindsInOrder());
  }

  lemma {:induction false} InBucket(blocks: seq<Block>, b: Block)
    ensures b in blocks <==> b in Of(blocks, KindOf(b))
  {
    if blocks != [] {
      InBucket(blocks[1..], b);
      assert blocks == [blocks[0]] + blocks[1..];
    }
  }

  /** The merged message is still a user request, so the next upsert finds the same one. */
  lemma MergedIsRequest(m: Message, fragments: seq<Fragment>)
    requires IsUserTextRequest(m)
    ensures IsUserTextRequest(m.(content := Merged(m.content, fragments)))
  {
    var items := ItemsOf(m.content);
    assert m.content.Text? ==> items[0] in items && HasText(items[0]);
    var b :| b in items && HasText(b);
    var after := Merged(m.content, fragments).blocks;
    InBucket(items, b);
    InBucket(after, b);
    MergedBuckets(m.content, fragments, KindOf(b));
    assert b in after;
  }

  /** A second upsert of the same fragments changes nothing, so the caller is told `false`. */
  lemma UpsertIsIdempotent(messages: seq<Message>, fragments: seq<Fragment>)
    ensures Upserted(Upserted(messages, fragments), fragments) == Upserted(messages, fragments)
  {
    var once := Upserted(messages, fragments);
    LastRequestIsLast(messages);
    LastRequestIsLast(once);
    if fragments != [] && LastRequest(messages).Some? {
      var at := LastRequest(messages).value;
      MergedIsRequest(messages[at], fragments);
      MergeIsIdempotent(messages[at].content, fragments);
      assert IsRequest(once[at]);
      assert LastRequest(once) == Some(at);
    }
  }

  /**
   What an upsert leaves in the request: context blocks in kind order before all others, the
   other blocks in their original order, and kinds that were not supplied untouched.
   */
  lemma UpsertIsStableNormalForm(messages: seq<Message>, fragments: seq<Fragment>, at: nat)
    requires fragments != [] && LastRequest(messages) == Some(at)
    ensures at < |messages| == |Upserted(messages, fragments)|
    ensures forall i | 0 <= i < |messages| && i != at :: Upserted(messages, fragments)[i] == messages[i]
    ensures var after := Upserted(messages, fragments)[at];
            && after.role == messages[at].role
            && after.content.Blocks?
            && Ascending(after.content.blocks)
            && Of(after.content.blocks, None) == Of(ItemsOf(messages[at].content), None)
            && forall kind | !Supplied(fragments, kind) ::
                 Of(after.content.blocks, kind) == Of(ItemsOf(messages[at].content), kind)
  {
    LastRequestIsLast(messages);
    var content := messages[at].content;
    SortedAscends(FragmentBlocks(fragments) + Retained(ItemsOf(content), fragments));
    assert !Supplied(fragments, None);
    forall kind | !Supplied(fragments, kind)
      ensures Of(Merged(content, fragments).blocks, kind) == Of(ItemsOf(content), kind)
    {
      MergedBuckets(content, fragments, kind);
    }
  }

  /** Somebody said something: a text, or a text block, that is not only white space. */
  predicate SaysSomething(content: Content) {
    match content
    case Text(text) => exists c | c in text :: !IsWhitespace(c)
    case Blocks(blocks) =>
      exists b | b in blocks :: b.TextBlock? && b.text.Some? && exists c | c in b.text.value :: !IsWhitespace(c)
    case OtherContent(_) => false
  }

  lemma RequestIff(m: Message)
    ensures IsRequest(m) <==> m.role == "user" && SaysSomething(m.content)
  {
    if m.content.Blocks? {
      forall b ensures HasText(b) <==>
                         b.TextBlock? && b.text.Some? && exists c | c in b.text.value :: !IsWhitespace(c)
      {
      }
    }
  }

  /** An upsert goes to the last message in which the user said something, and changes no other one. */
  lemma UpsertGoesToLastUserText(messages: seq<Message>, fragments: seq<Fragment>, i: nat)
    requires i < |messages| == |Upserted(messages, fragments)|
    ensures Upserted(messages, fragments)[i] != messages[i] ==>
              && fragments != []
              && messages[i].role == "user" && SaysSomething(messages[i].content)
              && forall k | i < k < |messages| :: !(messages[k].role == "user" && SaysSomething(messages[k].content))
    ensures fragments != [] && messages[i].role == "user" && SaysSomething(messages[i].content)
            && (forall k | i < k < |messages| :: !(messages[k].role == "user" && SaysSomething(messages[k].content)))
            ==> LastRequest(messages) == Some(i)
  {
    LastRequestIsLast(messages);
    forall m ensures IsRequest(m) <==> m.role == "user" && SaysSomething(m.content) {
      RequestIff(m);
    }
  }

  /** What is not context stays: the blocks in their order, or the text as a block of its own. */
  lemma MergedKeepsTheRequest(content: Content, fragments: seq<Fragment>)
    ensures Of(Merged(content, fragments).blocks, None)
            == match content
               case Blocks(blocks) => Of(blocks, None)
               case Text(text) => [TextBlock(Some(text), "")]
               case OtherContent(json) => [TextBlock(Some(json), "")]
  {
    assert !Supplied(fragments, None);
    MergedBuckets(content, fragments, None);
    if !content.Blocks? {
      assert ItemsOf(content)[1..] == [];
    }
  }

  /** The blocks in the order the kinds have in a request. */
  lemma MergedInKindOrder(content: Content, fragments: seq<Fragment>)
    ensures
      var after := Merged(content, fragments).blocks;
      after == Of(after, Some(Environment)) + Of(after, Some(ExecutionMode)) + Of(after, Some(ProtocolPromptSources))
               + Of(after, Some(SkillListing)) + Of(after, Some(RetrievedMemory)) + Of(after, None)
  {
    var blocks := FragmentBlocks(fragments) + Retained(ItemsOf(content), fragments);
    forall kind ensures Of(Sorted(blocks), kind) == Of(blocks, kind) {
      SortedKeepsBuckets(blocks, kind);
    }
    SortedIs(blocks);
  }

  // ---------- Lookup ----------

  /** The text of the last block of that kind that has one. */
  function BlockText(blocks: seq<Block>, kind: Kind): Option<string> {
    if blocks == [] then None
    else
      var last := blocks[|blocks| - 1];
      if KindOf(last) == Some(kind) && last.text.Some? then last.text
      else BlockText(blocks[..|blocks| - 1], kind)
  }

  /** What one message contributes to a lookup. */
  function TextIn(m: Message, kind: Kind): Option<string> {
    if m.content.Blocks? then BlockText(m.content.blocks, kind) else None
  }

  function LatestText(messages: seq<Message>, kind: Kind): Option<string> {
    if messages == [] then None
    else
      var found := TextIn(messages[|messages| - 1], kind);
      if found.Some? then found else LatestText(messages[..|messages| - 1], kind)
  }

  lemma LatestTextAt(messages: seq<Message>, at: nat, kind: Kind)
    requires at < |messages|
    ensures LatestText(messages[..at + 1], kind)
            == if TextIn(messages[at], kind).Some? then TextIn(messages[at], kind) else LatestText(messages[..at], kind)
  {
    assert messages[..at + 1][..at] == messages[..at];
  }

  lemma {:induction false} BlockTextFromBucket(blocks: seq<Block>, kind: Kind)
    ensures BlockText(blocks, kind) == BlockText(Of(blocks, Some(kind)), kind)
  {
    if blocks != [] {
      var n := |blocks| - 1;
      BlockTextFromBucket(blocks[..n], kind);
      OfConcat(blocks[..n], blocks[n..], Some(kind));
      assert blocks == blocks[..n] + blocks[n..];
      var bucket := Of(blocks[..n], Some(kind));
      assert blocks[n..][1..] == [];
      if KindOf(blocks[n]) == Some(kind) {
        assert Of(blocks, Some(kind)) == bucket + [blocks[n]];
        assert (bucket + [blocks[n]])[..|bucket|] == bucket;
      } else {
        assert Of(blocks, Some(kind)) == bucket;
      }
    }
  }

  function LastSupplied(fragments: seq<Fragment>, kind: Kind): Option<string> {
    if fragments == [] then None
    else if fragments[|fragments| - 1].kind == kind then Some(fragments[|fragments| - 1].text)
    else LastSupplied(fragments[..|fragments| - 1], kind)
  }

  lemma {:induction false} FragmentBlocksSnoc(fragments: seq<Fragment>, f: Fragment)
    ensures FragmentBlocks(fragments + [f]) == FragmentBlocks(fragments) + [BlockOf(f)]
  {
    if fragments != [] {
      FragmentBlocksSnoc(fragments[1..], f);
      assert (fragments + [f])[1..] == fragments[1..] + [f];
    }
  }

  lemma {:induction false} BlockTextOfFragments(fragments: seq<Fragment>, kind: Kind)
    ensures BlockText(FragmentBlocks(fragments), kind) == LastSupplied(fragments, kind)
    ensures Supplied(fragments, Some(kind)) <==> LastSupplied(fragments, kind).Some?
  {
    if fragments != [] {
      var n := |fragments| - 1;
      var before := FragmentBlocks(fragments[..n]);
      BlockTextOfFragments(fragments[..n], kind);
      FragmentBlocksSnoc(fragments[..n], fragments[n]);
      assert fragments == fragments[..n] + [fragments[n]];
      assert (before + [BlockOf(fragments[n])])[..|before|] == before;
    }
  }

  lemma MergedText(content: Content, fragments: seq<Fragment>, kind: Kind)
    ensures BlockText(Merged(content, fragments).blocks, kind)
            == if Supplied(fragments, Some(kind)) then LastSupplied(fragments, kind)
               else BlockText(ItemsOf(content), kind)
    ensures Supplied(fragments, Some(kind)) <==> LastSupplied(fragments, kind).Some?
  {
    MergedBuckets(content, fragments, Some(kind));
    BlockTextFromBucket(Merged(content, fragments).blocks, kind);
    BlockTextFromBucket(FragmentBlocks(fragments), kind);
    BlockTextFromBucket(ItemsOf(content), kind);
    BlockTextOfFragments(fragments, kind);
  }

  /**
   After an upsert, a lookup that reaches the request finds the last supplied fragment of each
   supplied kind, and for the other kinds what it found before.
   */
  lemma LookupFindsLastSupplied(messages: seq<Message>, fragments: seq<Fragment>, at: nat, kind: Kind)
    requires fragments != [] && LastRequest(messages) == Some(at) && at < |messages|
    ensures at < |Upserted(messages, fragments)|
    ensures LatestText(Upserted(messages, fragments)[..at + 1], kind)
            == if Supplied(fragments, Some(kind)) then LastSupplied(fragments, kind)
               else LatestText(messages[..at + 1], kind)
  {
    var once := Upserted(messages, fragments);
    assert once[..at] == messages[..at];
    LatestTextAt(messages, at, kind);
    LatestTextAt(once, at, kind);
    MergedText(messages[at].content, fragments, kind);
  }

  // ---------- The source's own form ----------

  method RetainOthers(blocks: seq<Block>, fragments: seq<Fragment>) returns (kept: seq<Block>)
    ensures kept == Retained(blocks, fragments)
  {
    kept := [];
    for i := |blocks| downto 0
      invariant kept == Retained(blocks[i..], fragments)
    {
      assert blocks[i..][1..] == blocks[i + 1..];
      if !Supplied(fragments, KindOf(blocks[i])) {
        kept := [blocks[i]] + kept;
      }
    }
  }

  method UpsertLatestUserModelContext(messages: array<Message>, fragments: seq<Fragment>) returns (changed: bool)
    modifies messages
    ensures messages[..] == Upserted(old(messages[..]), fragments)
    ensures changed <==> messages[..] != old(messages[..])
  {
    ghost var before := messages[..];
    LastRequestIsLast(before);
    if |fragments| == 0 {
      return false;
    }
    var i := messages.Length;
    while i > 0 && !IsRequest(messages[i - 1])
      invariant 0 <= i <= messages.Length && messages[..] == before
      invariant forall k | i <= k < messages.Length :: !IsRequest(before[k])
    {
      i := i - 1;
    }
    if i == 0 {
      return false;
    }
    var m := messages[i - 1];
    assert LastRequest(before) == Some(i - 1);
    var items := ItemsOf(m.content);
    var kept := RetainOthers(items, fragments);
    var content := Blocks(Sorted(FragmentBlocks(fragments) + kept));
    messages[i - 1] := m.(content := content);
    changed := content != m.content;
    assert messages[..] == before[i - 1 := m.(content := content)];
    assert before[i - 1] == m;
  }
}
