/** The content documents the storefront reads from its content backend, as
    far as the views look into them. Rich text is a list of blocks, each with
    a list of child spans; the views probe these shapes at run time, so the
    datatypes keep the shapes they distinguish. */
module Cms {
  import opened Wrappers

  /** A span of a rich-text block, whose `text` is absent when the span
      has no `text` key, or a primitive in its place. */
  datatype Child = Child(text: Option<string>) | NonObjectChild

  /** A block's `children` property: absent, `null`, or an array. */
  datatype Children = NoChildren | NullChildren | ChildList(items: seq<Child>)

  /** A rich-text block (`_type` and `children`), or a primitive in its place. */
  datatype Block = Block(blockType: Option<string>, children: Children) | NonObjectBlock

  datatype ImageAsset = ImageAsset(ref: Option<string>, assetType: Option<string>)

  datatype Image = Image(imageType: string, asset: ImageAsset)

  /** A referenced brand or department, of which the views read the name. */
  datatype Named = Named(name: string)

  /** One specification field of a product variation. */
  datatype Field = Field(key: Option<string>, value: Option<string>)

  datatype Variation = Variation(key: string, labelText: string, fields: seq<Field>)

  datatype Product = Product(
    title: string,
    slug: string,
    brand: Option<Named>,
    department: Option<Named>,
    description: Option<seq<Block>>,
    mainImage: Option<Image>,
    gallery: Option<seq<Image>>,
    variations: Option<seq<Variation>>)
}
