/** The flat containers that live in shared memory: src/plain_string.h,
    src/plain_vector.h and src/plain_string_vector.h. Their buffers never move and
    never grow; keeping inside them is the caller's duty. */
module PlainContainers {
  import opened TaskModel
  import opened CStrings

  /** A string in a buffer of maxSize characters and a terminator. */
  class PlainString {
    const maxSize: nat
    const data: array<char>
    var size: nat

    ghost predicate Valid()
      reads this, data
    {
      data.Length == maxSize + 1 && size <= maxSize && data[size] == NUL
    }

    ghost function Contents(): string
      requires Valid()
      reads this, data
    {
      data[..size]
    }

    constructor (maxSize: nat)
      ensures Valid() && this.maxSize == maxSize && Contents() == [] && fresh(data)
    {
      this.maxSize := maxSize;
      data := new char[maxSize + 1](_ => NUL);
      size := 0;
    }

    method Clear()
      requires Valid()
      modifies this, data
      ensures Valid() && Contents() == []
    {
      size := 0;
      data[0] := NUL;
    }

    method Set(str: string)
      requires Valid() && |str| <= maxSize
      modifies this, data
      ensures Valid() && Contents() == str
    {
      size := |str|;
      for i := 0 to |str|
        invariant size == |str| && data[..i] == str[..i]
      {
        data[i] := str[i];
      }
      data[|str|] := NUL;
      assert data[..size] == str[..|str|];
    }

    method Append(str: string)
      requires Valid() && size + |str| <= maxSize
      modifies this, data
      ensures Valid() && Contents() == old(Contents()) + str
    {
      for i := 0 to |str|
        invariant size == old(size) + i && data[..size] == old(Contents()) + str[..i]
      {
        data[size] := str[i];
        size := size + 1;
      }
      data[size] := NUL;
      assert data[..size] == old(Contents()) + str[..|str|];
    }

    method PushBack(value: char)
      requires Valid() && size < maxSize
      modifies this, data
      ensures Valid() && Contents() == old(Contents()) + [value]
    {
      data[size] := value;
      size := size + 1;
      data[size] := NUL;
    }

    method PopBack()
      requires Valid() && size > 0
      modifies this, data
      ensures Valid() && old(Contents()) == Contents() + [old(data[size - 1])]
    {
      size := size - 1;
      data[size] := NUL;
    }

    method Equals(str: string) returns (same: bool)
      requires Valid()
      ensures same <==> Contents() == str
    {
      if size != |str| {
        return false;
      }
      for i := 0 to size
        invariant data[..i] == str[..i]
      {
        if str[i] != data[i] {
          assert Contents()[i] != str[i];
          return false;
        }
      }
      assert str[..size] == str;
      return true;
    }

    /** Seen as a C string the buffer holds the contents up to their first NUL. */
    lemma CStringView()
      requires Valid()
      ensures StringAt(data[..], 0) == CPrefix(Contents())
      ensures StringAt(data[..], 0) == Contents() <==> NulFree(Contents())
    {
      StringAtTerminator(data[..], 0, Contents());
      CPrefixIsWholeIff(Contents());
    }
  }

  function ValuesOf<T>(slots: seq<Option<T>>): seq<T>
    requires forall i :: 0 <= i < |slots| ==> slots[i].Some?
  {
    seq(|slots|, i requires 0 <= i < |slots| => slots[i].value)
  }

  /** A vector that constructs and destroys its elements in place: a slot is Some
      while an object lives in it. */
  class PlainVector<T(0)> {
    const slots: array<Option<T>>
    var size: nat

    /** Objects live in the slots below size and nowhere else. */
    ghost predicate Valid()
      reads this, slots
    {
      && size <= slots.Length
      && (forall i :: 0 <= i < size ==> slots[i].Some?)
      && (forall i :: size <= i < slots.Length ==> slots[i].None?)
    }

    ghost function Items(): seq<T>
      requires Valid()
      reads this, slots
    {
      ValuesOf(slots[..size])
    }

    constructor (maxSize: nat)
      ensures Valid() && Items() == [] && slots.Length == maxSize && fresh(slots)
    {
      slots := new Option<T>[maxSize](_ => None);
      size := 0;
    }

    method PushBack(value: T)
      requires Valid() && size < slots.Length
      modifies this, slots
      ensures Valid() && Items() == old(Items()) + [value]
    {
      slots[size] := Some(value);
      size := size + 1;
    }

    /** As push_back, and the new element can be referred to by the result. */
    method EmplaceBack(value: T) returns (at: nat)
      requires Valid() && size < slots.Length
      modifies this, slots
      ensures Valid() && Items() == old(Items()) + [value] && at == |Items()| - 1
    {
      slots[size] := Some(value);
      size := size + 1;
      at := size - 1;
    }

    method PopBack()
      requires Valid() && size > 0
      modifies this, slots
      ensures Valid() && Items() == old(Items())[..old(size) - 1]
    {
      size := size - 1;
      slots[size] := None;
    }

    method Clear()
      requires Valid()
      modifies this, slots
      ensures Valid() && Items() == []
    {
      for i := 0 to size
        invariant size == old(size)
        invariant forall k :: 0 <= k < i ==> slots[k].None?
        invariant forall k :: size <= k < slots.Length ==> slots[k].None?
      {
        slots[i] := None;
      }
      size := 0;
    }
  }

  /** Strings packed into one arena, with a null-terminated table of pointers into
      it (offsets here): what execvpe() wants for argv and env. */
  class PlainStringVector {
    const maxItems: nat
    const maxTotal: nat
    const items: PlainVector<Option<nat>>
    const data: PlainString
    ghost var strings: seq<string>

    ghost predicate Separate()
      reads this, items, data
    {
      items.slots as object != data.data
    }

    ghost predicate Valid()
      reads this, items, items.slots, data, data.data
    {
      && items.Valid() && data.Valid() && Separate()
      && items.slots.Length == maxItems + 1 && data.maxSize == maxTotal + maxItems
      && data.Contents() == Packed(strings)
      && items.Items() == Pointers(strings) + [None]
    }

    /** The memory it lies in. */
    ghost function Cells(): set<object> {
      {this, items, items.slots, data, data.data}
    }

    /** What a program that is handed the table sees. */
    ghost function Decoded(): seq<string>
      requires Valid()
      reads this, items, items.slots, data, data.data
    {
      Decode(items.Items(), data.data[..])
    }

    constructor (maxItems: nat, maxTotal: nat)
      ensures Valid() && strings == [] && this.maxItems == maxItems && this.maxTotal == maxTotal
      ensures fresh(Cells())
    {
      this.maxItems, this.maxTotal := maxItems, maxTotal;
      items := new PlainVector(maxItems + 1);
      data := new PlainString(maxTotal + maxItems);
      strings := [];
      new;
      items.PushBack(None);
    }

    method Count() returns (n: nat)
      requires Valid()
      ensures n == |strings|
    {
      PackedSize(strings);
      assert |items.Items()| == items.size;
      n := items.size - 1;
    }

    /** Every earlier pointer still decodes to what it did, and the new one to the
        new string up to its first NUL. */
    method Add(str: string)
      requires Valid()
      requires |strings| < maxItems && |Packed(strings)| + |str| + 1 <= maxTotal + maxItems
      modifies this, items, items.slots, data, data.data
      ensures Valid() && strings == old(strings) + [str]
      ensures Decoded() == old(Decoded()) + [CPrefix(str)]
    {
      hide Packed, Pointers, Decode, TotalSize, CPrefixes, CPrefix;
      DecodeRoundTrip(strings, data.data[..]);
      PackedSize(strings);
      PackedOneMore(strings, str);
      assert |items.Items()| == items.size;
      items.PopBack();
      items.PushBack(Some(data.size));
      items.PushBack(None);
      data.Append(str);
      data.PushBack(NUL);
      strings := strings + [str];
      DecodeRoundTrip(strings, data.data[..]);
    }

    method Clear()
      requires Valid()
      modifies this, items, items.slots, data, data.data
      ensures Valid() && strings == [] && Decoded() == []
    {
      items.Clear();
      items.PushBack(None);
      data.Clear();
      strings := [];
    }

    /** Whatever was added since the last clear is what the table decodes to, cut
        at NULs; all of it exactly if no NUL was in it. */
    lemma TableDecodes()
      requires Valid()
      ensures Decoded() == CPrefixes(strings)
      ensures Decoded() == strings <==> AllNulFree(strings)
    {
      DecodeRoundTrip(strings, data.data[..]);
    }
  }
}
