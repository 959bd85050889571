/** The languages of the demos modelled here. Where the variants of one
    pattern behave differently, operations take the language as a
    parameter and follow that language's code. */
module Languages {
  datatype Language = Cpp | Python | Ruby | Swift
}
