/** The two naming-convention classifiers both sorters apply to a method name. */
module Naming {

  /** The character class `[a-zA-Z]`: ASCII letters only, case-sensitive. */
  predicate IsAsciiLetter(c: char)
  {
    'a' <= c <= 'z' || 'A' <= c <= 'Z'
  }

  /** A name is magic when it starts with "__" and ends with "__"; the two
      tests may overlap, so "__" and "___" are magic. */
  predicate IsMagic(name: string)
  {
    |name| >= 2 && name[..2] == "__" && name[|name| - 2..] == "__"
  }

  /** A name is private when the pattern `^_[a-zA-Z]` matches it, i.e. an
      underscore followed immediately by an ASCII letter; every other name is
      public. */
  predicate IsPrivate(name: string)
  {
    |name| >= 2 && name[0] == '_' && IsAsciiLetter(name[1])
  }

  predicate IsPublic(name: string)
  {
    !IsPrivate(name)
  }

  /** The second character of a magic name is '_', not a letter, so a magic
      name is never private. */
  lemma MagicIsPublic(name: string)
    ensures IsMagic(name) ==> IsPublic(name)
  {
  }

  /** The boundary cases of the magic test: the two affixes may overlap. */
  lemma MagicBoundaries()
    ensures IsMagic("__") && IsMagic("___") && !IsMagic("_") && !IsMagic("") && !IsMagic("__x")
  {
    var two, three, dx := "__", "___", "__x";
    assert two[..2] == two && two[0..] == two;
    assert three[..2] == two && three[1..] == two;
    assert dx[1..][1] == 'x';
  }

  /** The boundary cases of the privacy test: only '_' followed by a letter. */
  lemma PublicBoundaries()
    ensures IsPublic("_") && IsPublic("__") && IsPublic("_1") && IsPublic("__x") && IsPublic("__init__")
    ensures IsPublic("run") && !IsPublic("_private") && !IsPublic("_X")
  {
  }
}
