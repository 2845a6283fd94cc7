/** The read-only accessors of r_json.c over a finished object graph:
    rjs_get_key, rjs_get_key_index, rjs_istype and the rjs_get_v* getters.
    An object is given by its id in the heap; the key lists are followed
    through the next pointers, as the C loops do. */
module Queries {
  import opened JsonTypes
  import opened Lexical
  import opened Arena

  /** A key named `name`; an array element with no name never matches. */
  predicate Named(key: KeyNode, name: string)
  {
    key.name == Some(name)
  }

  /** The first key of the list l whose name is `name`, or NULL. */
  function FirstNamed(keys: seq<KeyNode>, l: seq<int>, name: string): (r: int)
    requires forall j :: 0 <= j < |l| ==> 0 <= l[j] < |keys|
  {
    if l == [] then NULL_ID
    else if Named(keys[l[0]], name) then l[0]
    else FirstNamed(keys, l[1..], name)
  }

  /** The search finds the first key with the name, and NULL exactly when
      no key of the list has it. */
  lemma {:induction false} FirstNamedIsFirst(keys: seq<KeyNode>, l: seq<int>, name: string)
    requires forall j :: 0 <= j < |l| ==> 0 <= l[j] < |keys|
    ensures var r := FirstNamed(keys, l, name);
      (r == NULL_ID <==> forall j :: 0 <= j < |l| ==> !Named(keys[l[j]], name)) &&
      (r != NULL_ID ==> exists j :: 0 <= j < |l| && l[j] == r && Named(keys[r], name) &&
                                    forall j' :: 0 <= j' < j ==> !Named(keys[l[j']], name))
  {
    if l != [] && !Named(keys[l[0]], name) {
      FirstNamedIsFirst(keys, l[1..], name);
      var r := FirstNamed(keys, l, name);
      if r != NULL_ID {
        var j :| 0 <= j < |l[1..]| && l[1..][j] == r && Named(keys[r], name) &&
                 forall j' :: 0 <= j' < j ==> !Named(keys[l[1..][j']], name);
        assert l[j + 1] == r;
        forall j' | 0 <= j' < j + 1
          ensures !Named(keys[l[j']], name)
        {
          if j' > 0 {
            assert l[j'] == l[1..][j' - 1];
          }
        }
      } else {
        forall j | 0 <= j < |l|
          ensures !Named(keys[l[j]], name)
        {
          if j > 0 {
            assert l[j] == l[1..][j - 1];
          }
        }
      }
    }
  }

  /** rjs_get_key: walks the list of obj from start_key along the next
      pointers and returns the first key whose name compares equal. */
  method GetKey(h: Heap, obj: int, name: string) returns (key: int)
    requires GraphInv(h) && CNames(h) && 0 <= obj < |h.objects| && NUL !in name
    ensures key == FirstNamed(h.keys, h.lists[obj], name)
  {
    var l := h.lists[obj];
    assert ListFrom(h.keys, h.objects[obj].startKey, l);
    if h.objects[obj].startKey == NULL_ID {
      return NULL_ID;
    }
    key := h.objects[obj].startKey;
    ghost var j := 0;
    while key != NULL_ID
      invariant 0 <= j <= |l| && ListFrom(h.keys, key, l[j..])
      invariant FirstNamed(h.keys, l[j..], name) == FirstNamed(h.keys, l, name)
      decreases |l| - j
    {
      assert l[j..][1..] == l[j + 1..];
      var found := false;
      if h.keys[key].name.Some? {
        var c := StrCmp(h.keys[key].name.value, name);
        found := c == 0;
      }
      if found {
        return key;
      }
      key := h.keys[key].next;
      j := j + 1;
    }
    assert l[j..] == [];
  }

  /** The key at position pos of the list l, or NULL past its end. */
  function KeyAt(l: seq<int>, pos: nat): int
  {
    if pos < |l| then l[pos] else NULL_ID
  }

  /** rjs_get_key_index: walks pos links from start_key, stopping early at
      the end of the list. */
  method GetKeyIndex(h: Heap, obj: int, pos: nat) returns (key: int)
    requires GraphInv(h) && 0 <= obj < |h.objects|
    ensures key == KeyAt(h.lists[obj], pos)
    ensures key != NULL_ID ==> pos < |h.lists[obj]| && 0 <= key < |h.keys|
    ensures key == NULL_ID <==> |h.lists[obj]| <= pos
  {
    var l := h.lists[obj];
    assert ListFrom(h.keys, h.objects[obj].startKey, l);
    ListFromBounds(h.keys, h.objects[obj].startKey, l);
    if h.objects[obj].startKey == NULL_ID {
      return NULL_ID;
    }
    key := h.objects[obj].startKey;
    var p := pos;
    ghost var j := 0;
    while key != NULL_ID
      invariant 0 <= j <= |l| && j + p == pos && ListFrom(h.keys, key, l[j..])
      decreases |l| - j
    {
      if p == 0 {
        break;
      }
      assert l[j..][1..] == l[j + 1..];
      p := p - 1;
      key := h.keys[key].next;
      j := j + 1;
    }
  }

  /** rjs_istype: 1 exactly when the key exists and its tag has the given
      code. */
  function IsType(h: Heap, key: int, code: int): (r: bool)
    requires -1 <= key < |h.keys|
  {
    key != NULL_ID && TypeCode(Tag(h.keys[key].value)) == code
  }

  /** A key answers to exactly one of the five type codes, the one of its
      payload, and a NULL key to none. */
  lemma IsTypeExactlyOne(h: Heap, key: int)
    requires -1 <= key < |h.keys|
    ensures key == NULL_ID ==> forall code :: !IsType(h, key, code)
    ensures key != NULL_ID ==>
      var v := h.keys[key].value;
      (IsType(h, key, 0) <==> v.Str?) && (IsType(h, key, 1) <==> v.Obj?) &&
      (IsType(h, key, 2) <==> v.Number?) && (IsType(h, key, 3) <==> v.Bool?) &&
      (IsType(h, key, 4) <==> v.Null?) &&
      forall code :: (code < 0 || code > 4) ==> !IsType(h, key, code)
  {
  }

  /** rjs_get_vobj on a key of type object. */
  function GetVObj(h: Heap, key: int): (r: int)
    requires 0 <= key < |h.keys| && IsType(h, key, TypeCode(KeyObject))
    ensures h.keys[key].value == Obj(r)
  {
    h.keys[key].value.obj
  }

  /** rjs_get_vstring on a key of type string (None when its copy did not
      fit in the arena). */
  function GetVString(h: Heap, key: int): (r: Option<string>)
    requires 0 <= key < |h.keys| && IsType(h, key, TypeCode(KeyString))
    ensures h.keys[key].value == Str(r)
  {
    h.keys[key].value.str
  }

  /** rjs_get_vnumber on a key of type number. */
  function GetVNumber(h: Heap, key: int): (r: Num)
    requires 0 <= key < |h.keys| && IsType(h, key, TypeCode(KeyNumber))
    ensures h.keys[key].value == Number(r)
  {
    h.keys[key].value.num
  }

  /** rjs_get_vbool on a key of type boolean. */
  function GetVBool(h: Heap, key: int): (r: bool)
    requires 0 <= key < |h.keys| && IsType(h, key, TypeCode(KeyBoolean))
    ensures h.keys[key].value == Bool(r)
  {
    h.keys[key].value.b
  }

  /** What a reader of a finished graph sees of any object: its keys in
      order by position, each of them found by name unless an earlier key
      has the same name. */
  lemma {:induction false} LookupsAgree(h: Heap, obj: int, pos: nat, name: string)
    requires GraphInv(h) && 0 <= obj < |h.objects| && pos < |h.lists[obj]|
    requires Named(h.keys[KeyAt(h.lists[obj], pos)], name)
    requires forall j :: 0 <= j < pos ==> !Named(h.keys[h.lists[obj][j]], name)
    ensures FirstNamed(h.keys, h.lists[obj], name) == KeyAt(h.lists[obj], pos)
  {
    var l := h.lists[obj];
    ListFromBounds(h.keys, h.objects[obj].startKey, l);
    FirstNamedIsFirst(h.keys, l, name);
    var r := FirstNamed(h.keys, l, name);
    var j :| 0 <= j < |l| && l[j] == r && Named(h.keys[r], name) &&
             forall j' :: 0 <= j' < j ==> !Named(h.keys[l[j']], name);
    assert j == pos;
  }
}
