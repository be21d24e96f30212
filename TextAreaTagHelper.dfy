/** The tag helper for <textarea> elements: when a model expression is bound,
    it asks an HTML generator for a textarea tag and copies that tag into the
    tag-helper output, keeping every attribute the page author wrote. */
module TagHelpers {
  import opened Attributes

  datatype Option<T> = None | Some(value: T)

  /** What the HTML generator returns for a textarea: the attributes, the
      inner HTML and the element name. */
  datatype TagBuilder = TagBuilder(attributes: AttributeTable, innerHtml: string, tagName: string)

  /** A bound `for` expression; of it, only its name reaches the generator here. */
  datatype ModelExpression = ModelExpression(name: string)

  /** The arguments given to the generator's GenerateTextArea. */
  datatype TextAreaRequest =
    TextAreaRequest(name: string, rows: int, columns: int, htmlAttributes: Option<AttributeTable>)

  /** The request Process makes: no rows, no columns, no extra attributes. */
  function RequestFor(expr: ModelExpression): TextAreaRequest {
    TextAreaRequest(expr.name, 0, 0, None)
  }

  /** The observable fields of a tag-helper output. */
  datatype OutputState =
    OutputState(attributes: AttributeTable, selfClosing: bool, content: string, tagName: string)

  /** The output after Process, given the output before, the bound `for`
      expression (None when unbound) and the generator. */
  function Processed(
    s: OutputState, forExpr: Option<ModelExpression>, generate: TextAreaRequest -> Option<TagBuilder>
  ): (r: OutputState)
    // Unbound `for`: nothing happens.
    ensures forExpr.None? ==> r == s
    // The generator returned no tag: nothing happens.
    ensures forExpr.Some? && generate(RequestFor(forExpr.value)).None? ==> r == s
    // No attribute is removed and an author-written attribute always wins.
    ensures forall k :: k in s.attributes ==> k in r.attributes && r.attributes[k] == s.attributes[k]
    // With a generated tag: the keys are the union, missing ones take the generated
    // value, the element is not self-closing and content and name come from the tag.
    ensures forExpr.Some? && generate(RequestFor(forExpr.value)).Some? ==>
      var tag := generate(RequestFor(forExpr.value)).value;
      && r.attributes.Keys == s.attributes.Keys + tag.attributes.Keys
      && (forall k :: k in tag.attributes && k !in s.attributes ==> r.attributes[k] == tag.attributes[k])
      && !r.selfClosing
      && r.content == tag.innerHtml
      && r.tagName == tag.tagName
  {
    match forExpr
    case None => s
    case Some(expr) =>
      match generate(RequestFor(expr))
      case None => s
      case Some(tag) => OutputState(Merge(s.attributes, tag.attributes), false, tag.innerHtml, tag.tagName)
  }

  /** Running the tag helper a second time on its own output changes nothing. */
  lemma ProcessIsIdempotent(
    s: OutputState, forExpr: Option<ModelExpression>, generate: TextAreaRequest -> Option<TagBuilder>
  )
    ensures Processed(Processed(s, forExpr, generate), forExpr, generate) == Processed(s, forExpr, generate)
  {
    if forExpr.Some? && generate(RequestFor(forExpr.value)).Some? {
      MergeIsIdempotent(s.attributes, generate(RequestFor(forExpr.value)).value.attributes);
    }
  }

  /** The mutable output a tag helper writes into. */
  class TagHelperOutput {
    var attributes: AttributeTable
    var selfClosing: bool
    var content: string
    var tagName: string

    function State(): OutputState
      reads this
    {
      OutputState(attributes, selfClosing, content, tagName)
    }

    constructor (tagName: string, attributes: AttributeTable, selfClosing: bool, content: string)
      ensures State() == OutputState(attributes, selfClosing, content, tagName)
    {
      this.tagName := tagName;
      this.attributes := attributes;
      this.selfClosing := selfClosing;
      this.content := content;
    }
  }

  class TextAreaTagHelper {
    /** The HTML generator supplied by the host; its implementation is not modelled. */
    const generator: TextAreaRequest -> Option<TagBuilder>
    /** The bound `for` expression, None until the page binds one. */
    var forExpr: Option<ModelExpression>

    constructor (generator: TextAreaRequest -> Option<TagBuilder>)
      ensures this.generator == generator && forExpr.None?
    {
      this.generator := generator;
      forExpr := None;
    }

    /** Copies the generated textarea into `output`; does nothing unless a
        `for` expression is bound and the generator returns a tag. */
    method Process(output: TagHelperOutput)
      modifies output
      ensures output.State() == Processed(old(output.State()), forExpr, generator)
    {
      if forExpr.Some? {
        var tagBuilder := generator(RequestFor(forExpr.value));
        if tagBuilder.Some? {
          var generated := tagBuilder.value.attributes;
          output.selfClosing := false;

          // The dictionary's enumeration order is not known: each pass takes
          // any name not yet visited, and `order` records the order taken.
          var remaining := generated.Keys;
          ghost var order: seq<string> := [];
          while remaining != {}
            invariant forall i :: 0 <= i < |order| ==> order[i] in generated
            invariant remaining == generated.Keys - Visited(order)
            invariant output.attributes == AddAll(old(output.attributes), generated, order)
            invariant !output.selfClosing
            decreases remaining
          {
            var key :| key in remaining;
            if key !in output.attributes {
              output.attributes := output.attributes[key := generated[key]];
            }
            VisitedSnoc(order, key);
            assert (order + [key])[..|order|] == order;
            order := order + [key];
            remaining := remaining - {key};
          }
          assert generated.Keys <= Visited(order);
          EveryEnumerationGivesMerge(old(output.attributes), generated, order);

          output.content := tagBuilder.value.innerHtml;
          output.tagName := tagBuilder.value.tagName;
        }
      }
    }
  }

  /** A client: the page author wrote rows="5"; the generator offers rows="2"
      and an id. Nothing happens until `for` is bound; then the author's value
      survives and the id is added. */
  method AuthorAttributeWins()
  {
    var tag := TagBuilder(map["rows" := "2", "id" := "Notes"], "hello", "textarea");
    var helper := new TextAreaTagHelper((request: TextAreaRequest) => Some(tag));
    var output := new TagHelperOutput("textarea", map["rows" := "5"], true, "");

    helper.Process(output);
    assert output.State() == OutputState(map["rows" := "5"], true, "", "textarea");

    helper.forExpr := Some(ModelExpression("Notes"));
    output := new TagHelperOutput("textarea", map["rows" := "5"], true, "");
    helper.Process(output);
    assert output.attributes == map["rows" := "5", "id" := "Notes"];
    assert !output.selfClosing && output.content == "hello";
  }
}
