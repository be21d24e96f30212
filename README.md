# TextAreaTagHelper: merging a generated textarea into a tag-helper output

This project models the `<textarea>` tag helper of the ASP.NET MVC tag-helper
library (`TextAreaTagHelper.Process`). When a page binds a `for` model
expression, the helper asks an HTML generator for a textarea tag. If the
generator returns one, the helper copies it into the mutable tag-helper output:

- the output stops being self-closing;
- every generated attribute whose name the output does not already hold is
  added, so attributes the page author wrote always win and none is removed;
- the output's content and tag name are replaced by the generated ones.

If no expression is bound, or the generator returns nothing, the output is left
untouched.

Layout:

- `Attributes.dfy` (module `Attributes`): the attribute table
  (`map<string, string>`), one pass of the copy loop (`AddIfAbsent`), the whole
  loop run in a given enumeration order (`AddAll`), and its order-free meaning
  (`Merge`). The lemmas prove that every enumeration order gives `Merge`.
- `TextAreaTagHelper.dfy` (module `TagHelpers`): the generator's result
  (`TagBuilder`), the request passed to the generator (`TextAreaRequest`: the
  expression's name, rows 0, columns 0, no extra attributes), the output as a
  class with fields updated in place (`TagHelperOutput`), the tag helper as a
  class (`TextAreaTagHelper`) whose `Process` method runs the copy loop, and
  the specification function `Processed` that `Process` is proved against.

The generator is a host-supplied service whose implementation is not part of
this model. It is a function field of the helper, from the request to an
optional `TagBuilder`, and it is consulted only when `for` is bound. The
dictionary's enumeration order is not known either. The loop in `Process`
therefore takes any name not yet visited, and a ghost sequence records the
order it took. The lemma `EveryEnumerationGivesMerge` shows that the order does
not matter.

## Model

| member | source | states |
|---|---|---|
| `Attributes.AddIfAbsent` | src/Microsoft.AspNet.Mvc.TagHelpers/TextAreaTagHelper.cs:48-51 | one pass of the loop: the name is in the table afterwards; if it was already there the table is unchanged, otherwise it maps to the generated value; existing entries keep their values |
| `Attributes.AddAll` | src/Microsoft.AspNet.Mvc.TagHelpers/TextAreaTagHelper.cs:46-52 | the `foreach` in a given enumeration order: the resulting names are the original names plus those visited, and every original entry keeps its value |
| `Attributes.Merge` | src/Microsoft.AspNet.Mvc.TagHelpers/TextAreaTagHelper.cs:46-52 | the copy's meaning: the names are the union of the output's and the generated names; an existing name keeps its value; a name that was absent takes exactly the generated value |
| `Attributes.MergeIsUnique` | src/Microsoft.AspNet.Mvc.TagHelpers/TextAreaTagHelper.cs:46-52 | any table with those three properties equals `Merge`, so they fully describe the copy |
| `Attributes.AddAllIsMerge` | src/Microsoft.AspNet.Mvc.TagHelpers/TextAreaTagHelper.cs:46-52 | after visiting any sequence of generated names, in any order and even with repeats, the table is the original merged with exactly the generated entries visited |
| `Attributes.EveryEnumerationGivesMerge` | src/Microsoft.AspNet.Mvc.TagHelpers/TextAreaTagHelper.cs:46-52 | a loop that visits every generated name gives `Merge`, whatever the dictionary's enumeration order |
| `Attributes.MergeIsIdempotent` | src/Microsoft.AspNet.Mvc.TagHelpers/TextAreaTagHelper.cs:46-52 | copying the same generated attributes a second time changes nothing |
| `TagHelpers.Processed` | src/Microsoft.AspNet.Mvc.TagHelpers/TextAreaTagHelper.cs:29-58 | with no `for` bound, or no tag generated, the output is unchanged; otherwise no attribute is removed, author attributes keep their values, the names are the union, absent names take the generated value, `selfClosing` is false, and content and tag name are the generated inner HTML and tag name |
| `TagHelpers.ProcessIsIdempotent` | src/Microsoft.AspNet.Mvc.TagHelpers/TextAreaTagHelper.cs:29-58 | running the helper again on its own output, with the same `for` and generator, changes nothing |
| `TagHelpers.TextAreaTagHelper.Process` | src/Microsoft.AspNet.Mvc.TagHelpers/TextAreaTagHelper.cs:29-58 | the output's new state (attributes, `selfClosing`, content, tag name) is `Processed` of its old state, the bound `for` and the generator; the loop invariant ties the table to `AddAll` over the names visited so far |
| `TagHelpers.TextAreaTagHelper.constructor` | src/Microsoft.AspNet.Mvc.TagHelpers/TextAreaTagHelper.cs:16-25 | a new helper holds the supplied generator and has no `for` expression bound |

## Left out

- The generator's `GenerateTextArea` implementation is not part of this model. Its result is an arbitrary optional `TagBuilder`, decided by a function of the request. Any side effect or exception it might have is not modelled.
- The view context and the expression's model metadata, passed to the generator, are not modelled. Only the expression's name, the constant rows and columns (0) and the absent extra attributes reach the modelled request.
- The `TagHelperContext` parameter of `Process` is unused by the code and is omitted.
- Host activation of `Generator` and `ViewContext` and the content-behaviour attribute on the class are dependency injection and metadata with no behaviour here.
- Attribute names are compared by exact string equality. The comparer of the output's dictionary is not part of this model; a case-insensitive comparer would treat, for example, `Rows` and `rows` as one attribute.
- The `Add` call's exception on a duplicate name is not modelled. The `ContainsKey` guard before it means it cannot be raised here.
- The `TagHelperOutput` type is defined outside the modelled file. Only the four fields that `Process` touches are modelled.
- The model-binding integration tests and the validation view model are not part of this model: the binding engine they exercise and the validators they rely on have no source here.
