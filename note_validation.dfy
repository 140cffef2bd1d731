/**
 * The note input schema: three rules per field (required, minimum length,
 * maximum length), each with its own message. A field's value is `None`
 * when the key is missing or null. Length counts the `char`s of the string
 * (Unicode scalar values); `String.prototype.length` counts UTF-16 code
 * units instead, so the two differ on characters outside the Basic
 * Multilingual Plane.
 */
module NoteValidation {
  import opened Wrappers

  datatype Field = Title | Content

  /** The three rule kinds the schema declares for each field. */
  datatype Rule = Required | MinLength | MaxLength

  /** One field-level failure, as reported to the form. */
  datatype Violation = Violation(field: Field, rule: Rule, message: string)

  /** Shortest accepted length of a field. */
  function MinOf(f: Field): nat {
    match f
    case Title => 3
    case Content => 10
  }

  /** Longest accepted length of a field. */
  function MaxOf(f: Field): nat {
    match f
    case Title => 100
    case Content => 1000
  }

  /** The message the schema attaches to each rule. */
  function Message(f: Field, rule: Rule): string {
    match (f, rule)
    case (Title, Required) => "Title is required"
    case (Title, MinLength) => "Title must be at least 3 characters"
    case (Title, MaxLength) => "Title must not exceed 100 characters"
    case (Content, Required) => "Content is required"
    case (Content, MinLength) => "Content must be at least 10 characters"
    case (Content, MaxLength) => "Content must not exceed 1000 characters"
  }

  /**
   * Whether `value` breaks `rule` of field `f`. `required` rejects a missing
   * value and the empty string; the length rules skip a missing value.
   */
  predicate Breaks(f: Field, rule: Rule, value: Option<string>): (broken: bool)
    ensures broken && rule != Required ==> value.Some?
    ensures value.Some? && MinOf(f) <= |value.value| <= MaxOf(f) ==> !broken
  {
    match rule
    case Required => value.None? || |value.value| == 0
    case MinLength => value.Some? && |value.value| < MinOf(f)
    case MaxLength => value.Some? && |value.value| > MaxOf(f)
  }

  /** The violation reported when `rule` of field `f` is broken. */
  function ViolationOf(f: Field, rule: Rule): Violation {
    Violation(f, rule, Message(f, rule))
  }

  /** The violations of one field, in the order the schema declares its rules. */
  function CheckField(f: Field, value: Option<string>): (vs: seq<Violation>)
    ensures forall v <- vs :: v.field == f && v == ViolationOf(f, v.rule) && Breaks(f, v.rule, value)
    ensures forall rule :: Breaks(f, rule, value) ==> ViolationOf(f, rule) in vs
  {
    (if Breaks(f, Required, value) then [ViolationOf(f, Required)] else [])
    + (if Breaks(f, MinLength, value) then [ViolationOf(f, MinLength)] else [])
    + (if Breaks(f, MaxLength, value) then [ViolationOf(f, MaxLength)] else [])
  }

  /**
   * Validate a candidate note: every violation of the title's rules, then
   * every violation of the content's rules.
   */
  function Validate(title: Option<string>, content: Option<string>): (vs: seq<Violation>)
    ensures ViolationOf(Title, Required) in vs <==> title.None? || |title.value| == 0
    ensures ViolationOf(Title, MinLength) in vs <==> title.Some? && |title.value| < 3
    ensures ViolationOf(Title, MaxLength) in vs <==> title.Some? && |title.value| > 100
    ensures ViolationOf(Content, Required) in vs <==> content.None? || |content.value| == 0
    ensures ViolationOf(Content, MinLength) in vs <==> content.Some? && |content.value| < 10
    ensures ViolationOf(Content, MaxLength) in vs <==> content.Some? && |content.value| > 1000
    ensures forall v <- vs :: v == ViolationOf(v.field, v.rule)
  {
    CheckField(Title, title) + CheckField(Content, content)
  }

  /** The six messages, exactly as the schema declares them. */
  lemma MessagesAsDeclared()
    ensures ViolationOf(Title, Required).message == "Title is required"
    ensures ViolationOf(Title, MinLength).message == "Title must be at least 3 characters"
    ensures ViolationOf(Title, MaxLength).message == "Title must not exceed 100 characters"
    ensures ViolationOf(Content, Required).message == "Content is required"
    ensures ViolationOf(Content, MinLength).message == "Content must be at least 10 characters"
    ensures ViolationOf(Content, MaxLength).message == "Content must not exceed 1000 characters"
  {
  }

  /** The violations in `vs` that concern field `f`, in order. */
  function OfField(vs: seq<Violation>, f: Field): (r: seq<Violation>)
    ensures forall v <- r :: v in vs && v.field == f
    ensures forall v <- vs :: v.field == f ==> v in r
  {
    if vs == [] then []
    else (if vs[0].field == f then [vs[0]] else []) + OfField(vs[1..], f)
  }

  lemma {:induction false} OfFieldAppend(a: seq<Violation>, b: seq<Violation>, f: Field)
    ensures OfField(a + b, f) == OfField(a, f) + OfField(b, f)
  {
    if a == [] {
      assert a + b == b;
    } else {
      assert (a + b)[0] == a[0];
      assert (a + b)[1..] == a[1..] + b;
      OfFieldAppend(a[1..], b, f);
    }
  }

  lemma {:induction false} OfFieldAll(vs: seq<Violation>, f: Field)
    requires forall v <- vs :: v.field == f
    ensures OfField(vs, f) == vs
  {
    if vs != [] {
      OfFieldAll(vs[1..], f);
    }
  }

  lemma {:induction false} OfFieldNone(vs: seq<Violation>, f: Field)
    requires forall v <- vs :: v.field != f
    ensures OfField(vs, f) == []
  {
    if vs != [] {
      OfFieldNone(vs[1..], f);
    }
  }

  /**
   * Each field is judged on its own value: the violations reported for the
   * title are those of the title's rules whatever the content is, and vice versa.
   */
  lemma FieldsAreIndependent(title: Option<string>, content: Option<string>)
    ensures OfField(Validate(title, content), Title) == CheckField(Title, title)
    ensures OfField(Validate(title, content), Content) == CheckField(Content, content)
  {
    var t, c := CheckField(Title, title), CheckField(Content, content);
    OfFieldAppend(t, c, Title);
    OfFieldAppend(t, c, Content);
    OfFieldAll(t, Title);
    OfFieldNone(c, Title);
    OfFieldAll(c, Content);
    OfFieldNone(t, Content);
  }

  /** Changing the content never changes what is reported about the title. */
  lemma TitleVerdictIgnoresContent(title: Option<string>, c1: Option<string>, c2: Option<string>)
    ensures OfField(Validate(title, c1), Title) == OfField(Validate(title, c2), Title)
  {
    FieldsAreIndependent(title, c1);
    FieldsAreIndependent(title, c2);
  }

  /** Changing the title never changes what is reported about the content. */
  lemma ContentVerdictIgnoresTitle(t1: Option<string>, t2: Option<string>, content: Option<string>)
    ensures OfField(Validate(t1, content), Content) == OfField(Validate(t2, content), Content)
  {
    FieldsAreIndependent(t1, content);
    FieldsAreIndependent(t2, content);
  }

  /**
   * A candidate is accepted exactly when both fields are present and within
   * their length bounds; `required` adds nothing, since an empty string
   * already fails the minimum length.
   */
  lemma AcceptedExactlyWithinBounds(title: Option<string>, content: Option<string>)
    ensures Validate(title, content) == [] <==>
      && title.Some? && 3 <= |title.value| <= 100
      && content.Some? && 10 <= |content.value| <= 1000
  {
  }

  /** A present but empty value breaks both `required` and the minimum length. */
  lemma EmptyBreaksRequiredAndMinimum(f: Field)
    ensures CheckField(f, Some("")) == [ViolationOf(f, Required), ViolationOf(f, MinLength)]
  {
  }

  /** The boundary cases: two characters of title, nine of content. */
  lemma BoundaryExamples()
    ensures Validate(Some("ab"), Some("1234567890")) == [Violation(Title, MinLength, "Title must be at least 3 characters")]
    ensures Validate(Some("abc"), Some("123456789")) == [Violation(Content, MinLength, "Content must be at least 10 characters")]
    ensures Validate(Some("abc"), Some("1234567890")) == []
  {
  }
}
