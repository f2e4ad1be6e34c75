/** The `tags` transform of the post DTO (src/posts/dto/create-post.dto.ts): a
    comma-separated string from form data becomes the list of its trimmed, non-empty
    pieces; a list from JSON passes through. */
module PostTags {
  import opened Text

  /** The raw `tags` value: a string from form data or a list from JSON. */
  datatype TagsInput = TagString(s: string) | TagList(items: seq<string>)

  /** `t` is the trimmed form of one of the pieces. */
  predicate ComesFrom(t: string, parts: seq<string>)
  {
    exists p :: p in parts && t == Trim(p)
  }

  /** The filter step for one trimmed piece. */
  function Keep(t: string): (r: seq<string>)
    ensures r == [] <==> t == ""
    ensures forall u :: u in r ==> u == t
  {
    if t == "" then [] else [t]
  }

  /** `.map(tag => tag.trim()).filter(tag => tag.length > 0)`. */
  function CleanTags(parts: seq<string>): (r: seq<string>)
    ensures |r| <= |parts|
    ensures forall t :: t in r ==> t != "" && IsTrimmed(t)
    ensures forall t :: t in r ==> ComesFrom(t, parts)
  {
    if parts == [] then []
    else
      var init := parts[..|parts| - 1];
      var last := Trim(parts[|parts| - 1]);
      var rest := CleanTags(init);
      assert forall p :: p in init ==> p in parts;
      rest + Keep(last)
  }

  /** The pieces are cleaned one after the other, so the tags keep the order of the
      pieces they come from. */
  lemma {:induction false} CleanTagsAppend(a: seq<string>, b: seq<string>)
    ensures CleanTags(a + b) == CleanTags(a) + CleanTags(b)
    decreases |b|
  {
    if b == [] {
      assert a + b == a;
    } else {
      var b', k := b[..|b| - 1], Keep(Trim(b[|b| - 1]));
      var ab := a + b;
      assert ab[..|ab| - 1] == a + b' && ab[|ab| - 1] == b[|b| - 1];
      calc {
        CleanTags(ab);
        { CleanTagsLast(ab); }
        CleanTags(a + b') + k;
        { CleanTagsAppend(a, b'); }
        (CleanTags(a) + CleanTags(b')) + k;
        CleanTags(a) + (CleanTags(b') + k);
        { CleanTagsLast(b); }
        CleanTags(a) + CleanTags(b);
      }
    }
  }

  /** One step of the definition, for the proof above. */
  lemma CleanTagsLast(parts: seq<string>)
    requires parts != []
    ensures CleanTags(parts) == CleanTags(parts[..|parts| - 1]) + Keep(Trim(parts[|parts| - 1]))
  {
  }

  /** The transform: a string is split on ',' and cleaned; anything else is returned
      as it came. */
  function TransformTags(value: TagsInput): (r: seq<string>)
    ensures value.TagList? ==> r == value.items
    ensures value.TagString? ==> forall t :: t in r ==> t != "" && IsTrimmed(t) && ',' !in t
  {
    match value
    case TagList(items) => items
    case TagString(s) =>
      var parts := Split(s, ',');
      var r := CleanTags(parts);
      assert forall t :: t in r ==> ',' !in t by {
        forall t | t in r ensures ',' !in t {
          assert ComesFrom(t, parts);
          var p :| p in parts && t == Trim(p);
        }
      }
      r
  }

  /** "a,b" gives the tags of "a" followed by the tags of "b": the output keeps the
      order of the input. */
  lemma TransformTagsConcat(a: string, b: string)
    ensures TransformTags(TagString(a + "," + b)) == TransformTags(TagString(a)) + TransformTags(TagString(b))
  {
    assert a + "," + b == a + [','] + b;
    SplitConcat(a, b, ',');
    CleanTagsAppend(Split(a, ','), Split(b, ','));
  }

  /** A piece with no comma gives its trimmed self, or nothing when that is empty. */
  lemma TransformOneTag(s: string)
    requires ',' !in s
    ensures TransformTags(TagString(s)) == (if Trim(s) == "" then [] else [Trim(s)])
  {
    SplitNoSep(s, ',');
  }
}
