// The class-name derivation of the Button component: seven optional style
// values become a list of class tokens that starts with the base token
// "in-button" and gets one modifier token per value provided, in a fixed
// order; the list is joined with single spaces into the class attribute.

module ClassNames {
  import opened Strings

  datatype Option<T> = None | Some(value: T)

  /** The style values of one render; None is a prop the caller left undefined. */
  datatype Style = Style(
    appearance: Option<string>,
    brightness: Option<string>,
    color: Option<string>,
    shape: Option<string>,
    size: Option<string>,
    state: Option<string>,
    width: Option<string>)

  const NO_STYLE: Style := Style(None, None, None, None, None, None, None)

  /** The kinds of style value, one per modifier token. */
  datatype Field = Appearance | Brightness | Color | Shape | Size | State | Width

  /** The order in which the render function looks at the fields: state before width. */
  const FIELDS: seq<Field> := [Appearance, Brightness, Color, Shape, Size, State, Width]

  const BASE_TOKEN: string := "in-button"

  /** A modifier token read back: which field it belongs to and the value it carries. */
  datatype Modifier = Modifier(field: Field, value: string)

  /** Position of a field in FIELDS. */
  function Rank(f: Field): (r: nat)
    ensures r < |FIELDS| && FIELDS[r] == f
  {
    match f
    case Appearance => 0
    case Brightness => 1
    case Color => 2
    case Shape => 3
    case Size => 4
    case State => 5
    case Width => 6
  }

  function Value(s: Style, f: Field): Option<string> {
    match f
    case Appearance => s.appearance
    case Brightness => s.brightness
    case Color => s.color
    case Shape => s.shape
    case Size => s.size
    case State => s.state
    case Width => s.width
  }

  /** The text in front of the value in a field's token; state has no "-state-" infix. */
  function Prefix(f: Field): string {
    match f
    case Appearance => "-appearance-"
    case Brightness => "-brightness-"
    case Color => "-color-"
    case Shape => "-shape-"
    case Size => "-size-"
    case State => "--"
    case Width => "-width-"
  }

  /** Reads a class token back as a modifier: the first field whose prefix opens it. */
  function Parse(t: string): Option<Modifier> {
    if Prefix(Appearance) <= t then Some(Modifier(Appearance, t[|Prefix(Appearance)|..]))
    else if Prefix(Brightness) <= t then Some(Modifier(Brightness, t[|Prefix(Brightness)|..]))
    else if Prefix(Color) <= t then Some(Modifier(Color, t[|Prefix(Color)|..]))
    else if Prefix(Shape) <= t then Some(Modifier(Shape, t[|Prefix(Shape)|..]))
    else if Prefix(Size) <= t then Some(Modifier(Size, t[|Prefix(Size)|..]))
    else if Prefix(State) <= t then Some(Modifier(State, t[|Prefix(State)|..]))
    else if Prefix(Width) <= t then Some(Modifier(Width, t[|Prefix(Width)|..]))
    else None
  }

  /** No field's prefix opens a token of another field, whatever value follows. */
  lemma PrefixFree(f: Field, g: Field, v: string)
    requires f != g
    ensures !(Prefix(g) <= Prefix(f) + v)
  {
    var k := if (f == Shape && g == Size) || (f == Size && g == Shape) then 2 else 1;
    assert (Prefix(f) + v)[k] == Prefix(f)[k];
    assert Prefix(f)[k] != Prefix(g)[k];
  }

  /** The token of field `f` carrying the value `v` verbatim. */
  function Token(f: Field, v: string): string {
    Prefix(f) + v
  }

  /** Parse reads a token back as exactly the field and value it was made from. */
  lemma ParseToken(f: Field, v: string)
    ensures Parse(Token(f, v)) == Some(Modifier(f, v))
  {
    forall g | g != f ensures !(Prefix(g) <= Prefix(f) + v) {
      PrefixFree(f, g, v);
    }
    assert (Prefix(f) + v)[|Prefix(f)|..] == v;
  }

  /** Distinct fields or distinct values never give the same token. */
  lemma TokenInjective(f: Field, v: string, g: Field, w: string)
    requires Token(f, v) == Token(g, w)
    ensures f == g && v == w
  {
    ParseToken(f, v);
    ParseToken(g, w);
  }

  /** The base token is not a modifier token. */
  lemma BaseIsNoModifier()
    ensures Parse(BASE_TOKEN) == None
  {
    forall f: Field ensures !(Prefix(f) <= BASE_TOKEN) {
      assert Prefix(f)[0] != BASE_TOKEN[0];
    }
  }

  /** The token a field contributes: one when its value is provided, none otherwise. */
  function TokenOf(s: Style, f: Field): seq<string> {
    match Value(s, f)
    case None => []
    case Some(v) => [Token(f, v)]
  }

  /** The modifier tokens contributed by the first `k` fields of FIELDS, in that order. */
  function TokensUpTo(s: Style, k: nat): seq<string>
    requires k <= |FIELDS|
  {
    if k == 0 then [] else TokensUpTo(s, k - 1) + TokenOf(s, FIELDS[k - 1])
  }

  /** The class token list of a render: the base token, then the modifiers in FIELDS order. */
  function Tokens(s: Style): seq<string> {
    [BASE_TOKEN] + TokensUpTo(s, |FIELDS|)
  }

  /** The class attribute of a render. */
  function ClassName(s: Style): string {
    Join(Tokens(s))
  }

  /** How many of the seven style values are provided. */
  function Provided(s: Style): nat {
    (if s.appearance.Some? then 1 else 0) + (if s.brightness.Some? then 1 else 0)
    + (if s.color.Some? then 1 else 0) + (if s.shape.Some? then 1 else 0)
    + (if s.size.Some? then 1 else 0) + (if s.state.Some? then 1 else 0)
    + (if s.width.Some? then 1 else 0)
  }

  /** Every value is free of spaces, so every token is too. */
  predicate SpaceFreeStyle(s: Style) {
    forall f: Field :: Value(s, f).Some? ==> SpaceFree(Value(s, f).value)
  }

  /**
   * One guarded push: when the list holds the base token and the tokens of
   * the first `k` fields, pushing the token of field FIELDS[k] (if its value
   * is provided) makes it hold those of the first `k + 1`.
   */
  lemma PushStep(s: Style, k: nat, f: Field, before: seq<string>, after: seq<string>)
    requires k < |FIELDS| && FIELDS[k] == f
    requires before == [BASE_TOKEN] + TokensUpTo(s, k)
    requires after == before + TokenOf(s, f)
    ensures after == [BASE_TOKEN] + TokensUpTo(s, k + 1)
  {
  }

  /** Once the tokens of all fields are pushed, the list is the whole token list. */
  lemma AllPushed(s: Style, k: nat, classes: seq<string>)
    requires k == |FIELDS|
    requires classes == [BASE_TOKEN] + TokensUpTo(s, k)
    ensures classes == Tokens(s)
  {
  }

  /**
   * One guarded push: the token of field `f` with the value is appended
   * when the value is provided, and nothing is appended when it is undefined.
   * The ensures is the new list of this one step; `ClassList` chains the
   * seven steps and is proved to build the reference list `Tokens`.
   */
  method PushIfProvided(classes: seq<string>, f: Field, value: Option<string>)
    returns (pushed: seq<string>)
    ensures pushed == classes + (if value.Some? then [Token(f, value.value)] else [])
  {
    pushed := classes;
    if value.Some? {
      pushed := pushed + [Token(f, value.value)];
    }
  }

  /**
   * The guarded pushes of the render function: the list starts as the base
   * token and each provided value appends its token, giving the token list.
   */
  method ClassList(s: Style) returns (classes: seq<string>)
    ensures classes == Tokens(s)
  {
    classes := [BASE_TOKEN];
    ghost var before := classes;
    classes := PushIfProvided(classes, Appearance, s.appearance);
    PushStep(s, 0, Appearance, before, classes);
    before := classes;
    classes := PushIfProvided(classes, Brightness, s.brightness);
    PushStep(s, 1, Brightness, before, classes);
    before := classes;
    classes := PushIfProvided(classes, Color, s.color);
    PushStep(s, 2, Color, before, classes);
    before := classes;
    classes := PushIfProvided(classes, Shape, s.shape);
    PushStep(s, 3, Shape, before, classes);
    before := classes;
    classes := PushIfProvided(classes, Size, s.size);
    PushStep(s, 4, Size, before, classes);
    before := classes;
    classes := PushIfProvided(classes, State, s.state);
    PushStep(s, 5, State, before, classes);
    before := classes;
    classes := PushIfProvided(classes, Width, s.width);
    PushStep(s, 6, Width, before, classes);
    AllPushed(s, |FIELDS|, classes);
  }

  /**
   * `t` is the token of a field whose value is provided in `s`, and it carries
   * that value verbatim.
   */
  predicate ModifierOf(s: Style, t: string) {
    Parse(t).Some?
    && Value(s, Parse(t).value.field) == Some(Parse(t).value.value)
    && t == Token(Parse(t).value.field, Parse(t).value.value)
  }

  /** The position in FIELDS of the field a modifier token belongs to. */
  function FieldRank(t: string): nat
    requires Parse(t).Some?
  {
    Rank(Parse(t).value.field)
  }

  /** The fields among the first `k` of FIELDS whose value is provided, in FIELDS order. */
  function ProvidedUpTo(s: Style, k: nat): seq<Field>
    requires k <= |FIELDS|
  {
    if k == 0 then []
    else ProvidedUpTo(s, k - 1) + (if Value(s, FIELDS[k - 1]).Some? then [FIELDS[k - 1]] else [])
  }

  /**
   * The tokens contributed by the first `k` fields are, one for one, the
   * tokens of the provided fields among them, each carrying its field's
   * value; those fields have rank below `k` and strictly increasing ranks.
   */
  lemma {:induction false} TokensUpToShape(s: Style, k: nat)
    requires k <= |FIELDS|
    ensures |TokensUpTo(s, k)| == |ProvidedUpTo(s, k)|
    ensures forall i :: 0 <= i < |ProvidedUpTo(s, k)| ==>
      Rank(ProvidedUpTo(s, k)[i]) < k
      && Value(s, ProvidedUpTo(s, k)[i]).Some?
      && TokensUpTo(s, k)[i] == Token(ProvidedUpTo(s, k)[i], Value(s, ProvidedUpTo(s, k)[i]).value)
    ensures forall i, j :: 0 <= i < j < |ProvidedUpTo(s, k)| ==>
      Rank(ProvidedUpTo(s, k)[i]) < Rank(ProvidedUpTo(s, k)[j])
  {
    if k > 0 {
      var f := FIELDS[k - 1];
      TokensUpToShape(s, k - 1);
      RankAt(k - 1);
      var init, fs := TokensUpTo(s, k - 1), ProvidedUpTo(s, k - 1);
      var all, ps := TokensUpTo(s, k), ProvidedUpTo(s, k);
      if Value(s, f).Some? {
        assert all == init + [Token(f, Value(s, f).value)];
        assert ps == fs + [f];
        forall i | 0 <= i < |ps|
          ensures Rank(ps[i]) < k && Value(s, ps[i]).Some?
          ensures all[i] == Token(ps[i], Value(s, ps[i]).value)
        {
          if i < |fs| {
            assert all[i] == init[i] && ps[i] == fs[i];
          }
        }
        forall i, j | 0 <= i < j < |ps| ensures Rank(ps[i]) < Rank(ps[j]) {
          assert ps[i] == fs[i];
          if j < |fs| {
            assert ps[j] == fs[j];
          }
        }
      } else {
        assert all == init && ps == fs;
      }
    }
  }

  /** FIELDS lists each field at its rank. */
  lemma RankAt(i: nat)
    requires i < |FIELDS|
    ensures Rank(FIELDS[i]) == i
  {
  }

  /** The class list always opens with the base token. */
  lemma TokensStartWithBase(s: Style)
    ensures |Tokens(s)| >= 1 && Tokens(s)[0] == BASE_TOKEN
  {
  }

  /** One token for the base plus one per provided value: never more than eight. */
  lemma TokenCount(s: Style)
    ensures |Tokens(s)| == 1 + Provided(s)
    ensures |Tokens(s)| <= 8
  {
    TokensListed(s);
    assert |TokenOf(s, Appearance)| == if s.appearance.Some? then 1 else 0;
    assert |TokenOf(s, Brightness)| == if s.brightness.Some? then 1 else 0;
    assert |TokenOf(s, Color)| == if s.color.Some? then 1 else 0;
    assert |TokenOf(s, Shape)| == if s.shape.Some? then 1 else 0;
    assert |TokenOf(s, Size)| == if s.size.Some? then 1 else 0;
    assert |TokenOf(s, State)| == if s.state.Some? then 1 else 0;
    assert |TokenOf(s, Width)| == if s.width.Some? then 1 else 0;
  }

  /**
   * Every token after the base is the token of a provided field carrying
   * that field's value verbatim, and the fields of the tokens strictly follow
   * the order appearance, brightness, color, shape, size, state, width.
   */
  lemma TokensWellFormed(s: Style)
    ensures forall i :: 1 <= i < |Tokens(s)| ==> ModifierOf(s, Tokens(s)[i])
    ensures forall i, j :: 1 <= i < j < |Tokens(s)| ==>
      Parse(Tokens(s)[i]).Some? && Parse(Tokens(s)[j]).Some?
      && FieldRank(Tokens(s)[i]) < FieldRank(Tokens(s)[j])
  {
    TokensUpToShape(s, |FIELDS|);
    var ps := ProvidedUpTo(s, |FIELDS|);
    forall i | 1 <= i < |Tokens(s)|
      ensures ModifierOf(s, Tokens(s)[i]) && Parse(Tokens(s)[i]).value.field == ps[i - 1]
    {
      ParseToken(ps[i - 1], Value(s, ps[i - 1]).value);
    }
  }

  /** A provided value's token is among the first `k` fields' tokens once its field is. */
  lemma {:induction false} ProvidedTokenUpTo(s: Style, k: nat, f: Field)
    requires Rank(f) < k <= |FIELDS|
    requires Value(s, f).Some?
    ensures Token(f, Value(s, f).value) in TokensUpTo(s, k)
  {
    if Rank(f) < k - 1 {
      ProvidedTokenUpTo(s, k - 1, f);
    } else {
      assert FIELDS[k - 1] == f;
    }
    assert TokensUpTo(s, k) == TokensUpTo(s, k - 1) + TokenOf(s, FIELDS[k - 1]);
  }

  /**
   * A field's token with value `v` is in the class list exactly when the
   * field was given the value `v`: absent fields contribute nothing, and no
   * default value stands in for them.
   */
  lemma TokenPresent(s: Style, f: Field, v: string)
    ensures Token(f, v) in Tokens(s) <==> Value(s, f) == Some(v)
  {
    ParseToken(f, v);
    if Value(s, f) == Some(v) {
      ProvidedTokenUpTo(s, |FIELDS|, f);
      assert Token(f, v) in Tokens(s)[1..];
    }
    if Token(f, v) in Tokens(s) {
      var i :| 0 <= i < |Tokens(s)| && Tokens(s)[i] == Token(f, v);
      BaseIsNoModifier();
      TokensWellFormed(s);
      assert i != 0;
    }
  }

  /** The same token list comes only from the same style values. */
  lemma TokensInjective(s1: Style, s2: Style)
    requires Tokens(s1) == Tokens(s2)
    ensures s1 == s2
  {
    forall f: Field ensures Value(s1, f) == Value(s2, f) {
      if Value(s1, f).Some? {
        TokenPresent(s1, f, Value(s1, f).value);
        TokenPresent(s2, f, Value(s1, f).value);
      }
      if Value(s2, f).Some? {
        TokenPresent(s1, f, Value(s2, f).value);
        TokenPresent(s2, f, Value(s2, f).value);
      }
    }
    assert Value(s1, Appearance) == Value(s2, Appearance);
    assert Value(s1, Brightness) == Value(s2, Brightness);
    assert Value(s1, Color) == Value(s2, Color);
    assert Value(s1, Shape) == Value(s2, Shape);
    assert Value(s1, Size) == Value(s2, Size);
    assert Value(s1, State) == Value(s2, State);
    assert Value(s1, Width) == Value(s2, Width);
  }

  /**
   * The class string opens with the base token; it is the base token alone
   * exactly when no style value is provided, and otherwise the base token is
   * followed by a space.
   */
  lemma ClassNameStartsWithBase(s: Style)
    ensures BASE_TOKEN <= ClassName(s)
    ensures ClassName(s) == BASE_TOKEN <==> Provided(s) == 0
    ensures Provided(s) > 0 ==> BASE_TOKEN + " " <= ClassName(s)
  {
    TokenCount(s);
    JoinStartsWithFirst(Tokens(s));
    if Provided(s) > 0 {
      assert |ClassName(s)| >= |BASE_TOKEN + " "|;
    }
  }

  /** With no style value provided the class string is exactly "in-button". */
  lemma NoStyleClassName()
    ensures ClassName(NO_STYLE) == "in-button"
  {
    ClassNameStartsWithBase(NO_STYLE);
  }

  /** Every token of a style whose values hold no space is itself free of spaces. */
  lemma TokensSpaceFree(s: Style)
    requires SpaceFreeStyle(s)
    ensures forall i :: 0 <= i < |Tokens(s)| ==> SpaceFree(Tokens(s)[i])
  {
    TokensWellFormed(s);
    forall i | 1 <= i < |Tokens(s)| ensures SpaceFree(Tokens(s)[i]) {
      var m := Parse(Tokens(s)[i]).value;
      PrefixSpaceFree(m.field);
      assert Tokens(s)[i] == Prefix(m.field) + m.value;
    }
  }

  lemma PrefixSpaceFree(f: Field)
    ensures SpaceFree(Prefix(f))
  {
  }

  /**
   * Splitting the class string at its spaces gives back the token list, as
   * long as no value holds a space.
   */
  lemma ClassNameSplits(s: Style)
    requires SpaceFreeStyle(s)
    ensures Split(ClassName(s)) == Tokens(s)
  {
    TokensSpaceFree(s);
    SplitJoin(Tokens(s));
  }

  /** Style values without spaces are recovered from the class string alone. */
  lemma ClassNameInjective(s1: Style, s2: Style)
    requires SpaceFreeStyle(s1) && SpaceFreeStyle(s2)
    requires ClassName(s1) == ClassName(s2)
    ensures s1 == s2
  {
    ClassNameSplits(s1);
    ClassNameSplits(s2);
    TokensInjective(s1, s2);
  }

  /** The token list written out field by field. */
  lemma TokensListed(s: Style)
    ensures Tokens(s) == [BASE_TOKEN] + TokenOf(s, Appearance) + TokenOf(s, Brightness)
      + TokenOf(s, Color) + TokenOf(s, Shape) + TokenOf(s, Size) + TokenOf(s, State)
      + TokenOf(s, Width)
  {
    var k: nat := 0;
    var acc := [BASE_TOKEN];
    PushStep(s, k, Appearance, acc, acc + TokenOf(s, Appearance));
    acc, k := acc + TokenOf(s, Appearance), k + 1;
    PushStep(s, k, Brightness, acc, acc + TokenOf(s, Brightness));
    acc, k := acc + TokenOf(s, Brightness), k + 1;
    PushStep(s, k, Color, acc, acc + TokenOf(s, Color));
    acc, k := acc + TokenOf(s, Color), k + 1;
    PushStep(s, k, Shape, acc, acc + TokenOf(s, Shape));
    acc, k := acc + TokenOf(s, Shape), k + 1;
    PushStep(s, k, Size, acc, acc + TokenOf(s, Size));
    acc, k := acc + TokenOf(s, Size), k + 1;
    PushStep(s, k, State, acc, acc + TokenOf(s, State));
    acc, k := acc + TokenOf(s, State), k + 1;
    PushStep(s, k, Width, acc, acc + TokenOf(s, Width));
    acc, k := acc + TokenOf(s, Width), k + 1;
  }

  /**
   * Values go into their tokens unchecked: an appearance value holding a
   * space and a size token yields the same class string as that appearance
   * and size given separately (for instance "solid -size-m" against "solid"
   * and "m").
   */
  lemma ValuesAreNotValidated(a: string, z: string)
    ensures ClassName(Style(Some(a + " -size-" + z), None, None, None, None, None, None))
         == ClassName(Style(Some(a), None, None, None, Some(z), None, None))
  {
    var one := Style(Some(a + " -size-" + z), None, None, None, None, None, None);
    var two := Style(Some(a), None, None, None, Some(z), None, None);
    var t1 := "-appearance-" + (a + " -size-" + z);
    var t2 := "-appearance-" + a;
    var t3 := "-size-" + z;
    TokensListed(one);
    TokensListed(two);
    assert Tokens(one) == [BASE_TOKEN, t1];
    assert Tokens(two) == [BASE_TOKEN, t2, t3];
    JoinSmall(BASE_TOKEN, t1, t1);
    JoinSmall(BASE_TOKEN, t2, t3);
    assert t1 == t2 + " " + t3;
  }

  /**
   * Appearance, size and state: three modifiers after the base, state last
   * (appearance "solid", size "m", state "disabled" give
   * "in-button -appearance-solid -size-m --disabled").
   */
  lemma ExampleAppearanceSizeState(a: string, z: string, st: string)
    ensures ClassName(Style(Some(a), None, None, None, Some(z), Some(st), None))
         == Join(["in-button", "-appearance-" + a, "-size-" + z, "--" + st])
    ensures ClassName(Style(Some(a), None, None, None, Some(z), Some(st), None))
         == "in-button" + " " + ("-appearance-" + a) + " " + ("-size-" + z) + " " + ("--" + st)
  {
    var style := Style(Some(a), None, None, None, Some(z), Some(st), None);
    var parts := ["in-button", "-appearance-" + a, "-size-" + z, "--" + st];
    TokensListed(style);
    assert Tokens(style) == parts;
    JoinSmall(parts[1], parts[2], parts[3]);
    assert parts[1..] == [parts[1], parts[2], parts[3]];
    assert Join(parts) == parts[0] + " " + (parts[1] + " " + parts[2] + " " + parts[3]);
  }

  /** The documented example: appearance solid, size m and state disabled. */
  lemma ExampleSolidMediumDisabled()
    ensures ClassName(Style(Some("solid"), None, None, None, Some("m"), Some("disabled"), None))
         == "in-button -appearance-solid -size-m --disabled"
  {
    ExampleAppearanceSizeState("solid", "m", "disabled");
  }

  /** Color and width: the base token, then "-color-<c>", then "-width-<w>". */
  lemma ExampleColorAndWidth(c: string, w: string)
    ensures ClassName(Style(None, None, Some(c), None, None, None, Some(w)))
         == Join(["in-button", "-color-" + c, "-width-" + w])
    ensures ClassName(Style(None, None, Some(c), None, None, None, Some(w)))
         == "in-button" + " " + ("-color-" + c) + " " + ("-width-" + w)
  {
    var style := Style(None, None, Some(c), None, None, None, Some(w));
    TokensListed(style);
    assert Tokens(style) == ["in-button", "-color-" + c, "-width-" + w];
    JoinSmall("in-button", "-color-" + c, "-width-" + w);
  }
}
