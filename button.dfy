// The Button render function around the class-name derivation: the props are
// split into the style values, the content slots and the remaining
// attributes ("rest"); the element gets the remaining attributes with the
// derived class string written over any className among them.

module Button {
  import opened Strings
  import opened ClassNames

  /**
   * A prop value as the render function sees it: explicitly undefined, a
   * string, or any other value (content, an event handler, a flag), which
   * the render function only passes along.
   */
  datatype Prop<V> = Undefined | Text(text: string) | Other(value: V)

  /** The props of one render, by attribute name; a missing key is an absent prop. */
  type Props<V> = map<string, Prop<V>>

  const STYLE_KEYS: set<string> :=
    {"appearance", "brightness", "color", "shape", "size", "state", "width"}

  /** The props the render function takes out of the attributes it forwards. */
  const DESTRUCTURED: set<string> :=
    STYLE_KEYS + {"areaLabel", "body", "leading", "trailing"}

  const CLASS_NAME: string := "className"

  /** The props type admits only a string, or undefined, under a style key. */
  predicate StyleTyped<V>(props: Props<V>) {
    forall k :: k in STYLE_KEYS && k in props ==> !props[k].Other?
  }

  /** A style value is provided when its prop is present and not undefined. */
  function StyleProp<V>(props: Props<V>, key: string): Option<string>
    requires key in props ==> !props[key].Other?
  {
    if key in props && props[key].Text? then Some(props[key].text) else None
  }

  /** The style values destructured from the props. */
  function StyleOf<V>(props: Props<V>): Style
    requires StyleTyped(props)
  {
    Style(
      StyleProp(props, "appearance"),
      StyleProp(props, "brightness"),
      StyleProp(props, "color"),
      StyleProp(props, "shape"),
      StyleProp(props, "size"),
      StyleProp(props, "state"),
      StyleProp(props, "width"))
  }

  /**
   * One render: the element's attributes are exactly the props that were not
   * destructured, unchanged, plus the class string derived from the style
   * values, which replaces any className the caller passed.
   */
  method Render<V>(props: Props<V>) returns (attributes: Props<V>)
    requires StyleTyped(props)
    ensures CLASS_NAME in attributes
    ensures attributes[CLASS_NAME] == Text(ClassName(StyleOf(props)))
    ensures forall k :: k in attributes <==> k == CLASS_NAME || (k in props && k !in DESTRUCTURED)
    ensures forall k :: k in attributes && k != CLASS_NAME ==> attributes[k] == props[k]
  {
    var style := StyleOf(props);
    var rest := map k | k in props && k !in DESTRUCTURED :: props[k];
    var classes := ClassList(style);
    attributes := rest[CLASS_NAME := Text(Join(classes))];
  }

  /**
   * Changing or adding any prop other than the seven style props, a
   * className among them, leaves the style values, and so the class string,
   * as they were.
   */
  lemma PassthroughIgnored<V>(props: Props<V>, key: string, value: Prop<V>)
    requires StyleTyped(props)
    requires key !in STYLE_KEYS
    ensures StyleTyped(props[key := value])
    ensures StyleOf(props[key := value]) == StyleOf(props)
    ensures ClassName(StyleOf(props[key := value])) == ClassName(StyleOf(props))
  {
  }

  /** A style prop set to undefined is the same as one left out: it adds no token. */
  lemma UndefinedIsAbsent<V>(props: Props<V>, key: string)
    requires StyleTyped(props)
    ensures StyleTyped(props[key := Undefined]) && StyleTyped(props - {key})
    ensures StyleOf(props[key := Undefined]) == StyleOf(props - {key})
  {
  }

  /**
   * A style prop holding a string, even the empty one, is provided: its
   * field's token with that string is in the class list.
   */
  lemma StringPropAddsToken<V>(props: Props<V>, f: Field, key: string)
    requires StyleTyped(props)
    requires key == KeyOf(f) && key in props && props[key].Text?
    ensures Token(f, props[key].text) in Tokens(StyleOf(props))
  {
    TokenPresent(StyleOf(props), f, props[key].text);
  }

  /** The prop name of each style field. */
  function KeyOf(f: Field): (key: string)
    ensures key in STYLE_KEYS
  {
    match f
    case Appearance => "appearance"
    case Brightness => "brightness"
    case Color => "color"
    case Shape => "shape"
    case Size => "size"
    case State => "state"
    case Width => "width"
  }
}
