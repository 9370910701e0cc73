/** Document trees by value: what the DOM holds once every string has been decoded. */
module XmlTree {
  datatype Attribute = Attribute(name: string, value: string)

  datatype Tree =
    | Element(name: string, attrs: seq<Attribute>, kids: seq<Tree>)
    | Text(value: string, cdata: bool)
    | Comment(value: string)
    | Declaration(value: string)
    | Unknown(value: string)
}
