/** The two enums both crates declare with the same variants: the languages
    the tools recognise and the complexity rating bands. */
module Langs {
  datatype Language = JavaScript | TypeScript | Cpp | C | Python | CSharp | Go | Rust | Unknown

  datatype Rating = Simple | Moderate | Complex | VeryComplex
}
