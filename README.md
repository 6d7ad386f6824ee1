# Button class names, in Dafny

A model of the render function of the `Button` component
(`src/components/button/index.tsx`). The function takes seven optional
style props: appearance, brightness, color, shape, size, state and width.
It turns them into the button's `className`:

- the class list starts with the base token `in-button`;
- each style prop that is not `undefined` pushes one token, in the order
  appearance, brightness, color, shape, size, state, width;
- the token is `-<kind>-<value>` for every prop except state, whose token is
  `--<value>`, with no `-state-` infix;
- the list is joined with single spaces.

The render function also destructures the props. The seven style props and
`areaLabel`, `body`, `leading` and `trailing` are taken out. Everything else
(`rest`) is spread onto the `<button>`, and the derived `className` is written
after the spread, so it replaces any `className` the caller passed.

The project has three modules:

- `Strings` (`strings.dfy`): `Join`, which models `Array.prototype.join(' ')`,
  and `Split`, which models `String.prototype.split(' ')`. Both round trips
  are proved: `Join(Split(s)) == s` always, and `Split(Join(parts)) == parts`
  for a non-empty list whose parts hold no space (the empty list joins to
  `""`, which splits to `[""]`).
- `ClassNames` (`class_names.dfy`): the style values (`Style`, one
  `Option<string>` per prop) and the token grammar (`Prefix`, `Token`). It
  also holds the reference definition of the token list (`Tokens`, a fold
  over the fixed field order `FIELDS`) and of the class string (`ClassName`).
  The method `ClassList` performs the seven guarded pushes step by step and is
  proved to build `Tokens`. `Parse` reads a token back as its field and value.
  It is the inverse used to prove that the token grammar is unambiguous, and,
  together with `Split`, that values without spaces can be recovered from the
  class string.
- `Button` (`button.dfy`): props as a map from attribute name to value, the
  destructuring (`StyleOf`, the `rest` map) and `Render`. `Render` returns the
  attributes of the rendered element.

Two details of the code that the model follows:

- The state token is pushed before the width token
  (src/components/button/index.tsx:72-78).
- `leading`, `body`, `trailing` and `areaLabel` are destructured
  (src/components/button/index.tsx:36-49) and never used in the element
  (src/components/button/index.tsx:80). `children` is not destructured, so it
  stays in `rest` and is forwarded like any other attribute.

## Model

| member | source | states |
|---|---|---|
| `Strings.JoinStartsWithFirst` | src/components/button/index.tsx:80 | the joined string opens with the first part; with one part it is that part, with more the first part is followed by a space |
| `Strings.SplitJoin` | src/components/button/index.tsx:80 | for a non-empty list of space-free parts, splitting their join at spaces gives back exactly those parts |
| `Strings.JoinSplit` | src/components/button/index.tsx:80 | joining the pieces of a split string gives back the string |
| `ClassNames.PrefixFree` | src/components/button/index.tsx:53-77 | no field's token prefix opens a token of another field, whatever value follows |
| `ClassNames.ParseToken` | src/components/button/index.tsx:52-78 | every token names its field by its prefix (`--` for state) and carries the value verbatim after it |
| `ClassNames.TokenInjective` | src/components/button/index.tsx:52-78 | two tokens are equal only for the same field and the same value |
| `ClassNames.BaseIsNoModifier` | src/components/button/index.tsx:51 | the base token `in-button` is not the token of any field |
| `ClassNames.PushIfProvided` | src/components/button/index.tsx:52-54 | one guarded push: the field's token is appended when the value is provided, and nothing is appended when it is undefined |
| `ClassNames.ClassList` | src/components/button/index.tsx:51-78 | the list built by the base token and the seven guarded pushes equals the reference token list `Tokens` |
| `ClassNames.TokensUpToShape` | src/components/button/index.tsx:52-78 | the tokens of the first k fields correspond one for one to the provided fields among them, each carrying its value, with strictly increasing field order |
| `ClassNames.TokensStartWithBase` | src/components/button/index.tsx:51 | the token list is never empty and starts with `in-button` |
| `ClassNames.TokenCount` | src/components/button/index.tsx:51-78 | the list holds 1 + (number of provided values) tokens, so at most 8 |
| `ClassNames.TokensWellFormed` | src/components/button/index.tsx:52-78 | every token after the base is the token of a provided field carrying that field's value, and the fields follow the order appearance, brightness, color, shape, size, state, width |
| `ClassNames.TokenPresent` | src/components/button/index.tsx:52-78 | the token of field f with value v is in the list if and only if f was given v, so an absent field contributes no token and no default |
| `ClassNames.TokensInjective` | src/components/button/index.tsx:51-78 | equal token lists come only from equal style values |
| `ClassNames.TokensListed` | src/components/button/index.tsx:51-78 | the token list is the base token followed by each field's contribution, field by field in the fixed order |
| `ClassNames.ClassNameStartsWithBase` | src/components/button/index.tsx:51-80 | the class string starts with `in-button`; it is exactly `in-button` if and only if no value is provided, and otherwise `in-button ` opens it |
| `ClassNames.NoStyleClassName` | src/components/button/index.tsx:51-80 | with no style value the class string is `in-button` |
| `ClassNames.TokensSpaceFree` | src/components/button/index.tsx:52-78 | when no value holds a space, no token does |
| `ClassNames.ClassNameSplits` | src/components/button/index.tsx:51-80 | when no value holds a space, splitting the class string at spaces gives back the token list |
| `ClassNames.ClassNameInjective` | src/components/button/index.tsx:51-80 | style values without spaces are determined by the class string |
| `ClassNames.ValuesAreNotValidated` | src/components/button/index.tsx:52-80 | values are not validated: an appearance value `a -size-z` gives the same class string as appearance `a` with size `z` |
| `ClassNames.ExampleAppearanceSizeState` | src/components/button/index.tsx:51-80 | appearance a, size z and state st give the class string `in-button -appearance-a -size-z --st` |
| `ClassNames.ExampleSolidMediumDisabled` | src/components/button/index.tsx:51-80 | appearance solid, size m and state disabled give `in-button -appearance-solid -size-m --disabled` |
| `ClassNames.ExampleColorAndWidth` | src/components/button/index.tsx:51-80 | color c and width w give the class string `in-button -color-c -width-w` |
| `Button.Render` | src/components/button/index.tsx:36-80 | the element's attributes are exactly `className` plus the props that were not destructured, those unchanged; `className` is the class string of the destructured style, whatever `className` the caller passed |
| `Button.PassthroughIgnored` | src/components/button/index.tsx:36-80 | setting any prop other than the seven style props, `className` included, changes neither the style values nor the class string |
| `Button.UndefinedIsAbsent` | src/components/button/index.tsx:52-78 | a style prop set to `undefined` has the same effect as one left out |
| `Button.StringPropAddsToken` | src/components/button/index.tsx:52-78 | a style prop holding any string, the empty one included, puts its field's token with that string in the class list |

## Left out

- Ref forwarding (`React.forwardRef`, the `ref` attribute) and `displayName`
  are React plumbing with no logic to state. `Render` returns only the
  element's other attributes.
- The stylesheet import is left out, and so is whether any token is styled.
  The stylesheet is not part of this model.
- The enum types of the style props (`Appearance`, `Size`, `State` and the
  others) are left out, because the types module is not part of this model.
  Values are plain strings. The only thing taken from the types is that a
  style prop holds a string or `undefined` (the `StyleTyped` precondition of
  `Render`).
- JavaScript's conversion of a non-string value inside a template literal is
  not modelled. The model assumes every style value is a string: appearance,
  color, size and state are declared as unions of string literals
  (src/components/button/index.tsx:18-29), and brightness, shape and width
  take their types from the types module, which is not part of this model.
- Rendering of content is left out. `leading`, `body`, `trailing` and
  `areaLabel` are destructured and dropped, as in the code. `children` is
  forwarded as an ordinary attribute; how React renders it is not modelled.
- `ClassNames.ClassList`: the seven inline `if (typeof v !== 'undefined')
  classes.push(...)` blocks are written as seven calls of one helper,
  `PushIfProvided`. The literal token prefixes live in `Prefix`, not at the
  call sites.
