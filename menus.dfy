/** The two menu state machines behind the interactive pickers (Program.cs:679-750). */
module Menus {
  import opened Numbers

  datatype MenuItem<T> = MenuItem(name: string, value: T)

  /** Moving down and back up returns to the same item, except from the last one. */
  lemma DownThenUp(index: int, count: int)
    requires 0 <= index < count - 1
    ensures Clamp(Clamp(index + 1, 0, count - 1) - 1, 0, count - 1) == index
  {
  }

  /** A vertical list with a cursor (Program.cs:697-724). */
  class VerticalMenu<T> {
    const items: seq<MenuItem<T>>
    var selectedIndex: int

    constructor (items: seq<MenuItem<T>>, selectedIndex: int := 0)
      ensures this.items == items && this.selectedIndex == selectedIndex
    {
      this.items := items;
      this.selectedIndex := selectedIndex;
    }

    /** The values behind the items, in order. */
    function Values(): (vs: seq<T>)
      ensures |vs| == |items|
      ensures forall i :: 0 <= i < |items| ==> vs[i] == items[i].value
    {
      seq(|items|, i requires 0 <= i < |items| => items[i].value)
    }

    /** Program.cs:713-714. Whatever the cursor was, it ends inside the list. */
    method Up()
      requires |items| >= 1
      modifies this
      ensures selectedIndex == Clamp(old(selectedIndex) - 1, 0, |items| - 1)
      ensures 0 <= selectedIndex < |items|
    {
      selectedIndex := Clamp(selectedIndex - 1, 0, |items| - 1);
    }

    /** Program.cs:716-717. */
    method Down()
      requires |items| >= 1
      modifies this
      ensures selectedIndex == Clamp(old(selectedIndex) + 1, 0, |items| - 1)
      ensures 0 <= selectedIndex < |items|
    {
      selectedIndex := Clamp(selectedIndex + 1, 0, |items| - 1);
    }

    /** Program.cs:719: an alias of Up. */
    method Left()
      requires |items| >= 1
      modifies this
      ensures selectedIndex == Clamp(old(selectedIndex) - 1, 0, |items| - 1)
    {
      Up();
    }

    /** Program.cs:720: an alias of Down. */
    method Right()
      requires |items| >= 1
      modifies this
      ensures selectedIndex == Clamp(old(selectedIndex) + 1, 0, |items| - 1)
    {
      Down();
    }

    /** Program.cs:721: typed characters are ignored. */
    method SendChar(c: char)
      ensures unchanged(this)
    {
    }

    /** Program.cs:722: delete is ignored. */
    method Delete()
      ensures unchanged(this)
    {
    }

    /** Program.cs:723: the value under the cursor is one of the menu's values. */
    function SelectedItem(): (r: T)
      reads this
      requires 0 <= selectedIndex < |items|
      ensures r in Values()
    {
      items[selectedIndex].value
    }
  }

  /** The characters `Char.IsLetterOrDigit` accepts, restricted to ASCII. */
  predicate IsLetterOrDigit(c: char)
  {
    'a' <= c <= 'z' || 'A' <= c <= 'Z' || '0' <= c <= '9'
  }

  predicate IsUpperOrDigit(c: char)
  {
    'A' <= c <= 'Z' || '0' <= c <= '9'
  }

  /** `Char.ToUpper` on ASCII: lower-case letters are shifted, everything else is kept. */
  function ToUpper(c: char): (r: char)
    ensures IsLetterOrDigit(c) ==> IsUpperOrDigit(r)
    ensures !('a' <= c <= 'z') ==> r == c
    ensures 'a' <= c <= 'z' ==> r as int - c as int == 'A' as int - 'a' as int
  {
    if 'a' <= c <= 'z' then (c as int - 32) as char else c
  }

  /** A bounded text-entry box (Program.cs:726-750). */
  class AlphanumericMenu {
    const maxLength: int
    var value: string

    constructor (maxLength: int)
      ensures this.maxLength == maxLength && value == "" && Valid()
    {
      this.maxLength := maxLength;
      this.value := "";
    }

    /** The buffer never exceeds its bound and holds only upper-case letters and digits. */
    ghost predicate Valid()
      reads this
    {
      && (|value| <= maxLength || value == "")
      && forall i :: 0 <= i < |value| ==> IsUpperOrDigit(value[i])
    }

    /** Program.cs:736-740. */
    method SendChar(c: char)
      modifies this
      ensures IsLetterOrDigit(c) && |old(value)| < maxLength ==> value == old(value) + [ToUpper(c)]
      ensures !(IsLetterOrDigit(c) && |old(value)| < maxLength) ==> value == old(value)
      ensures old(Valid()) ==> Valid()
    {
      if IsLetterOrDigit(c) && |value| < maxLength {
        value := value + [ToUpper(c)];
      }
    }

    /** Program.cs:742-743: drop the last character; the empty text stays empty. */
    method Delete()
      modifies this
      ensures old(value) == "" ==> value == ""
      ensures old(value) != "" ==> value + [old(value)[|old(value)| - 1]] == old(value)
      ensures old(Valid()) ==> Valid()
    {
      value := value[..Max(0, |value| - 1)];
    }
  }
}
