/** The parser record of r_json.h as a value, and the arena and object-graph
    operations of r_json.c on it: rjs_alloc, rjs_pushstring, rjs_create_obj,
    the object stack and the rjs_obj_pushkey family.
    The arena is an offset counter: each allocation advances `top`. Objects
    and keys live in two tables indexed by id, and `lists` gives, for every
    object, the ids of its keys in list order. */
module Arena {
  import opened JsonTypes
  import opened Lexical
  import opened Numbers

  /** enum rjs_states_e, without RJS_READ_TOKEN_STRING, which no step ever
      enters. */
  datatype State =
    | SearchOpenBracket
    | SearchEnd
    | SearchTokenString
    | SearchColon
    | SearchValue
    | ReadValueString
    | ReadValueStringControl
    | ReadValueNumber

  /** What the arena holds: the object and key tables, and for every object
      the ids of its keys in list order. */
  datatype Heap = Heap(objects: seq<ObjectNode>, keys: seq<KeyNode>, lists: seq<seq<int>>)

  /** rjs_parser_t: memory.size and memory.top, start_object, the two
      pending buffers with their positions, error_log, the object stack,
      the out-of-memory flag, the two state fields and line_count; plus the
      contents of the arena. */
  datatype PState = PState(
    memSize: nat,
    top: nat,
    startObject: int,
    tmpToken: seq<char>,
    tokenPos: int,
    tmpValue: seq<char>,
    valuePos: int,
    errorLog: seq<char>,
    stack: seq<int>,
    stackTop: int,
    oom: bool,
    state: State,
    nextState: State,
    lineCount: int,
    heap: Heap)

  /** Every key id stored in an object is a valid id or NULL, and every
      object has a key list. */
  predicate HeapOk(h: Heap)
  {
    |h.lists| == |h.objects| &&
    forall o :: 0 <= o < |h.objects| ==>
      -1 <= h.objects[o].startKey < |h.keys| && -1 <= h.objects[o].endKey < |h.keys| &&
      (h.objects[o].startKey == NULL_ID <==> h.objects[o].endKey == NULL_ID)
  }

  /** The shape every parser state keeps: the fixed buffer sizes, the stack
      bounds, and ids that stay inside the tables. */
  predicate WF(ps: PState)
  {
    |ps.tmpToken| == MAX_STRING_SIZE && |ps.tmpValue| == MAX_STRING_SIZE &&
    |ps.errorLog| == MAX_STRING_SIZE && |ps.stack| == OBJECT_STACK_SIZE &&
    -1 <= ps.stackTop < OBJECT_STACK_SIZE &&
    (forall j :: 0 <= j <= ps.stackTop ==> -1 <= ps.stack[j] < |ps.heap.objects|) &&
    -1 <= ps.startObject < |ps.heap.objects| &&
    ps.top <= ps.memSize && HeapOk(ps.heap)
  }

  // ---------------------------------------------------------------- arena

  /** rjs_alloc: fails exactly when the request does not fit, and then only
      raises the out-of-memory flag; otherwise hands out the old top and
      advances it by exactly the size. */
  function Alloc(ps: PState, size: nat): (r: (PState, int))
    ensures r.1 == NULL_ID <==> ps.top + size > ps.memSize
    ensures r.1 == NULL_ID ==> r.0 == ps.(oom := true)
    ensures r.1 != NULL_ID ==> r.1 == ps.top && r.0 == ps.(top := ps.top + size) && r.0.top <= ps.memSize
  {
    if ps.top + size > ps.memSize then (ps.(oom := true), NULL_ID)
    else (ps.(top := ps.top + size), ps.top)
  }

  /** Two successive allocations hand out disjoint regions, and top never
      moves backwards. */
  lemma AllocRegionsDisjoint(ps: PState, a: nat, b: nat)
    ensures var (ps1, l1) := Alloc(ps, a);
            var (ps2, l2) := Alloc(ps1, b);
            ps.top <= ps1.top <= ps2.top &&
            (l1 != NULL_ID && l2 != NULL_ID ==> l1 + a <= l2)
  {
  }

  /** The size rjs_pushstring requests for n bytes (text and terminator):
      rounded up to a multiple of 4, with 4 whole bytes added when n is
      already a multiple. */
  function Padded(n: nat): (r: nat)
    ensures r % 4 == 0 && n < r <= n + 4
  {
    n + 4 - n % 4
  }

  /** rjs_pushstring: the copy of str, or None when the padded block does
      not fit. */
  function PushString(ps: PState, str: string): (r: (PState, Option<string>))
    ensures r.1 == None <==> ps.top + Padded(|str| + 1) > ps.memSize
    ensures r.1 == None ==> r.0 == ps.(oom := true)
    ensures r.1 != None ==> r.1 == Some(str) && r.0 == ps.(top := ps.top + Padded(|str| + 1))
  {
    var (ps1, loc) := Alloc(ps, Padded(|str| + 1));
    if loc == NULL_ID then (ps1, None) else (ps1, Some(str))
  }

  /** rjs_create_obj: a new empty, non-array object, or NULL. */
  function CreateObj(ps: PState): (r: (PState, int))
    requires WF(ps)
    ensures WF(r.0)
    ensures r.1 == NULL_ID <==> ps.top + OBJECT_SIZE > ps.memSize
    ensures r.1 == NULL_ID ==> r.0 == ps.(oom := true)
    ensures r.1 != NULL_ID ==>
      r.1 == |ps.heap.objects| && r.0 == ps.(top := ps.top + OBJECT_SIZE, heap := NewObject(ps.heap))
  {
    var (ps1, loc) := Alloc(ps, OBJECT_SIZE);
    if loc == NULL_ID then (ps1, NULL_ID)
    else (ps1.(heap := NewObject(ps1.heap)), |ps1.heap.objects|)
  }

  /** The heap with one more object, empty and not an array. */
  function NewObject(h: Heap): (r: Heap)
    requires HeapOk(h)
    ensures HeapOk(r)
    ensures r.objects == h.objects + [ObjectNode(NULL_ID, NULL_ID, false)] && r.lists == h.lists + [[]] && r.keys == h.keys
  {
    Heap(h.objects + [ObjectNode(NULL_ID, NULL_ID, false)], h.keys, h.lists + [[]])
  }

  /** new_obj->is_array = 1. */
  function SetArray(ps: PState, obj: int): (r: PState)
    requires WF(ps) && 0 <= obj < |ps.heap.objects|
    ensures WF(r)
    ensures r == ps.(heap := r.heap) && r.heap.lists == ps.heap.lists && r.heap.keys == ps.heap.keys
    ensures |r.heap.objects| == |ps.heap.objects| && r.heap.objects[obj].isArray
    ensures forall o :: 0 <= o < |ps.heap.objects| && o != obj ==> r.heap.objects[o] == ps.heap.objects[o]
  {
    ps.(heap := ps.heap.(objects := ps.heap.objects[obj := ps.heap.objects[obj].(isArray := true)]))
  }

  // ---------------------------------------------------------- object stack

  /** The live part of the object stack, bottom first. */
  function Live(ps: PState): seq<int>
    requires WF(ps)
  {
    ps.stack[..ps.stackTop + 1]
  }

  /** rjs_stack_pushobject: refused, with nothing changed, when the 256
      slots are in use; otherwise obj becomes the top. */
  function StackPush(ps: PState, obj: int): (r: (PState, bool))
    requires WF(ps) && -1 <= obj < |ps.heap.objects|
    ensures WF(r.0)
    ensures !r.1 <==> |Live(ps)| == OBJECT_STACK_SIZE
    ensures !r.1 ==> r.0 == ps
    ensures r.1 ==> Live(r.0) == Live(ps) + [obj]
    ensures r.1 ==> r.0 == ps.(stack := r.0.stack, stackTop := ps.stackTop + 1)
  {
    if ps.stackTop == OBJECT_STACK_SIZE - 1 then (ps, false)
    else
      var r := ps.(stack := ps.stack[ps.stackTop + 1 := obj], stackTop := ps.stackTop + 1);
      assert Live(r) == Live(ps) + [obj];
      (r, true)
  }

  /** rjs_stack_popobject: refused when the stack is empty; otherwise drops
      the top. */
  function StackPop(ps: PState): (r: (PState, bool))
    requires WF(ps)
    ensures WF(r.0)
    ensures !r.1 <==> Live(ps) == []
    ensures !r.1 ==> r.0 == ps
    ensures r.1 ==> Live(r.0) == Live(ps)[..|Live(ps)| - 1]
    ensures r.1 ==> r.0 == ps.(stackTop := ps.stackTop - 1)
  {
    if ps.stackTop == -1 then (ps, false) else (ps.(stackTop := ps.stackTop - 1), true)
  }

  /** rjs_stack_top: NULL for an empty stack, else the last object pushed. */
  function StackTop(ps: PState): (r: int)
    requires WF(ps)
    ensures Live(ps) == [] ==> r == NULL_ID
    ensures Live(ps) != [] ==> r == Live(ps)[|Live(ps)| - 1]
    ensures -1 <= r < |ps.heap.objects|
  {
    if ps.stackTop == -1 then NULL_ID else ps.stack[ps.stackTop]
  }

  /** Pushing and then popping restores the live stack, and in between the
      pushed object is on top. */
  lemma StackPushPop(ps: PState, obj: int)
    requires WF(ps) && -1 <= obj < |ps.heap.objects| && |Live(ps)| < OBJECT_STACK_SIZE
    ensures StackPush(ps, obj).1 && StackTop(StackPush(ps, obj).0) == obj
    ensures Live(StackPop(StackPush(ps, obj).0).0) == Live(ps)
  {
    var pushed := StackPush(ps, obj).0;
    assert Live(pushed) == Live(ps) + [obj];
    assert Live(pushed)[..|Live(pushed)| - 1] == Live(ps);
  }

  // ------------------------------------------------------- key lists

  /** The chain of next pointers from k visits exactly the ids of l and
      then ends in NULL. */
  predicate ListFrom(keys: seq<KeyNode>, k: int, l: seq<int>)
    decreases |l|
  {
    if l == [] then k == NULL_ID
    else k == l[0] && 0 <= k < |keys| && ListFrom(keys, keys[k].next, l[1..])
  }

  predicate NoDuplicates(l: seq<int>)
  {
    forall i, j :: 0 <= i < j < |l| ==> l[i] != l[j]
  }

  /** Two different objects never share a key. */
  predicate Disjoint(lists: seq<seq<int>>)
  {
    forall o1, o2, i, j ::
      (0 <= o1 < |lists| && 0 <= o2 < |lists| && o1 != o2 && 0 <= i < |lists[o1]| && 0 <= j < |lists[o2]|) ==>
      lists[o1][i] != lists[o2][j]
  }

  /** Each object's start_key chain lists exactly its keys. */
  predicate Chains(h: Heap)
    requires HeapOk(h)
  {
    forall o :: 0 <= o < |h.objects| ==> ListFrom(h.keys, h.objects[o].startKey, h.lists[o])
  }

  /** end_key is the last key, NULL only for an empty object. */
  predicate Ends(h: Heap)
    requires HeapOk(h)
  {
    forall o :: 0 <= o < |h.objects| ==>
      (h.lists[o] == [] <==> h.objects[o].endKey == NULL_ID) &&
      (h.lists[o] != [] ==> h.objects[o].endKey == h.lists[o][|h.lists[o]| - 1])
  }

  /** Keys are valid ids, never repeated in a list and never shared. */
  predicate Unique(h: Heap)
    requires HeapOk(h)
  {
    (forall o, i :: 0 <= o < |h.objects| && 0 <= i < |h.lists[o]| ==> 0 <= h.lists[o][i] < |h.keys|) &&
    (forall o :: 0 <= o < |h.objects| ==> NoDuplicates(h.lists[o])) &&
    Disjoint(h.lists)
  }

  /** Object values point at objects, and the elements of an array carry no
      name unless they are null. */
  predicate Contents(h: Heap)
    requires HeapOk(h) && Unique(h)
  {
    (forall k :: 0 <= k < |h.keys| && h.keys[k].value.Obj? ==> -1 <= h.keys[k].value.obj < |h.objects|) &&
    (forall o, i :: 0 <= o < |h.objects| && h.objects[o].isArray && 0 <= i < |h.lists[o]| ==>
      h.keys[h.lists[o][i]].name.None? || h.keys[h.lists[o][i]].value.Null?)
  }

  /** The object graph the parser builds. */
  predicate GraphInv(h: Heap)
  {
    HeapOk(h) && Chains(h) && Ends(h) && Unique(h) && Contents(h)
  }

  /** Every stored name is a C string. */
  predicate CNames(h: Heap)
  {
    forall k :: 0 <= k < |h.keys| && h.keys[k].name.Some? ==> NUL !in h.keys[k].name.value
  }

  lemma {:induction false} ListFromBounds(keys: seq<KeyNode>, k: int, l: seq<int>)
    requires ListFrom(keys, k, l)
    ensures forall i :: 0 <= i < |l| ==> 0 <= l[i] < |keys|
    decreases |l|
  {
    if l != [] {
      ListFromBounds(keys, keys[k].next, l[1..]);
      forall i | 0 <= i < |l| ensures 0 <= l[i] < |keys| {
        if i > 0 {
          assert l[i] == l[1..][i - 1];
        }
      }
    }
  }

  /** A chain only depends on the next pointers of the keys it visits. */
  lemma {:induction false} ListFromFrame(keys: seq<KeyNode>, keys': seq<KeyNode>, k: int, l: seq<int>)
    requires ListFrom(keys, k, l) && |keys| <= |keys'|
    requires forall i :: 0 <= i < |l| ==> 0 <= l[i] < |keys|
    requires forall i :: 0 <= i < |l| ==> keys'[l[i]].next == keys[l[i]].next
    ensures ListFrom(keys', k, l)
    decreases |l|
  {
    if l != [] {
      assert keys'[l[0]].next == keys[l[0]].next;
      forall i | 0 <= i < |l[1..]| ensures keys'[l[1..][i]].next == keys[l[1..][i]].next {
        assert l[1..][i] == l[i + 1];
      }
      ListFromFrame(keys, keys', keys[k].next, l[1..]);
    }
  }

  /** Pointing the last key of a chain at a fresh key whose next is NULL
      extends the chain by that key. */
  lemma {:induction false} ListFromAppend(keys: seq<KeyNode>, keys': seq<KeyNode>, k: int, l: seq<int>)
    requires ListFrom(keys, k, l) && l != [] && NoDuplicates(l)
    requires forall i :: 0 <= i < |l| ==> 0 <= l[i] < |keys|
    requires |keys'| == |keys| + 1 && keys'[|keys|].next == NULL_ID
    requires keys'[l[|l| - 1]].next == |keys|
    requires forall i :: 0 <= i < |l| - 1 ==> keys'[l[i]].next == keys[l[i]].next
    ensures ListFrom(keys', k, l + [|keys|])
    decreases |l|
  {
    var n := |keys|;
    if |l| == 1 {
      assert (l + [n])[1..] == [n];
      assert [n][1..] == [];
    } else {
      var tail := l[1..];
      forall i | 0 <= i < |tail| - 1 ensures keys'[tail[i]].next == keys[tail[i]].next {
        assert tail[i] == l[i + 1];
      }
      assert tail[|tail| - 1] == l[|l| - 1];
      ListFromAppend(keys, keys', keys[k].next, tail);
      assert (l + [n])[1..] == tail + [n];
      assert keys'[k].next == keys[k].next;
    }
  }

  /** rjs_obj_pushkey on the heap: the new key (its next set to NULL) goes at
      the tail of obj's list; start_key is set only when the list was empty,
      and end_key becomes the new key. */
  function LinkKey(h: Heap, obj: int, node: KeyNode): (r: Heap)
    requires HeapOk(h) && 0 <= obj < |h.objects|
    ensures HeapOk(r)
    ensures r.lists == h.lists[obj := h.lists[obj] + [|h.keys|]]
    ensures |r.keys| == |h.keys| + 1 && r.keys[|h.keys|] == node.(next := NULL_ID)
    ensures r.objects[obj].endKey == |h.keys| && r.objects[obj].isArray == h.objects[obj].isArray
    ensures r.objects[obj].startKey == if h.objects[obj].startKey == NULL_ID then |h.keys| else h.objects[obj].startKey
    ensures |r.objects| == |h.objects| && forall o :: 0 <= o < |h.objects| && o != obj ==> r.objects[o] == h.objects[o]
    ensures forall k :: 0 <= k < |h.keys| ==> r.keys[k].name == h.keys[k].name && r.keys[k].value == h.keys[k].value
  {
    var k := |h.keys|;
    var o := h.objects[obj];
    var keys := h.keys + [node.(next := NULL_ID)];
    if o.startKey == NULL_ID then
      Heap(h.objects[obj := o.(startKey := k, endKey := k)], keys, h.lists[obj := h.lists[obj] + [k]])
    else
      Heap(h.objects[obj := o.(endKey := k)], keys[o.endKey := keys[o.endKey].(next := k)],
           h.lists[obj := h.lists[obj] + [k]])
  }

  /** After linking, obj's chain has grown by the new key and every other
      chain is unchanged. */
  lemma LinkKeepsChains(h: Heap, obj: int, node: KeyNode)
    requires HeapOk(h) && Chains(h) && Ends(h) && Unique(h) && 0 <= obj < |h.objects|
    ensures Chains(LinkKey(h, obj, node))
  {
    var r := LinkKey(h, obj, node);
    var n := |h.keys|;
    forall o | 0 <= o < |h.objects|
      ensures ListFrom(r.keys, r.objects[o].startKey, r.lists[o])
    {
      if o != obj {
        forall i | 0 <= i < |h.lists[o]| ensures r.keys[h.lists[o][i]].next == h.keys[h.lists[o][i]].next {
          if h.lists[obj] != [] {
            assert h.lists[o][i] != h.lists[obj][|h.lists[obj]| - 1];
          }
        }
        ListFromFrame(h.keys, r.keys, h.objects[o].startKey, h.lists[o]);
      } else if h.lists[obj] == [] {
        assert r.lists[obj] == [n];
        assert [n][1..] == [];
      } else {
        var l := h.lists[obj];
        forall i | 0 <= i < |l| - 1 ensures r.keys[l[i]].next == h.keys[l[i]].next {
          assert l[i] != l[|l| - 1];
        }
        ListFromAppend(h.keys, r.keys, h.objects[obj].startKey, l);
      }
    }
  }

  /** The new key is fresh, so lists stay free of repeats and unshared. */
  lemma LinkKeepsUnique(h: Heap, obj: int, node: KeyNode)
    requires HeapOk(h) && Unique(h) && 0 <= obj < |h.objects|
    ensures Unique(LinkKey(h, obj, node))
  {
    var r := LinkKey(h, obj, node);
    var n := |h.keys|;
    assert r.lists[obj] == h.lists[obj] + [n];
    forall o1, o2, i, j |
      0 <= o1 < |r.lists| && 0 <= o2 < |r.lists| && o1 != o2 && 0 <= i < |r.lists[o1]| && 0 <= j < |r.lists[o2]|
      ensures r.lists[o1][i] != r.lists[o2][j]
    {
      if o1 == obj && i == |h.lists[obj]| {
        assert r.lists[o2][j] == h.lists[o2][j];
      } else if o2 == obj && j == |h.lists[obj]| {
        assert r.lists[o1][i] == h.lists[o1][i];
      } else {
        assert r.lists[o1][i] == h.lists[o1][i] && r.lists[o2][j] == h.lists[o2][j];
      }
    }
  }

  /** Linking keeps the object graph, provided an object value points at an
      object and an array element has no name unless it is null. */
  lemma LinkKeepsGraph(h: Heap, obj: int, node: KeyNode)
    requires GraphInv(h) && 0 <= obj < |h.objects|
    requires node.value.Obj? ==> -1 <= node.value.obj < |h.objects|
    requires h.objects[obj].isArray ==> node.name.None? || node.value.Null?
    ensures GraphInv(LinkKey(h, obj, node))
  {
    LinkKeepsChains(h, obj, node);
    LinkKeepsUnique(h, obj, node);
    var r := LinkKey(h, obj, node);
    forall o, i | 0 <= o < |r.objects| && r.objects[o].isArray && 0 <= i < |r.lists[o]|
      ensures r.keys[r.lists[o][i]].name.None? || r.keys[r.lists[o][i]].value.Null?
    {
      if o != obj || i < |h.lists[obj]| {
        assert r.lists[o][i] == h.lists[o][i];
        assert r.keys[h.lists[o][i]].name == h.keys[h.lists[o][i]].name;
        assert r.keys[h.lists[o][i]].value == h.keys[h.lists[o][i]].value;
      }
    }
  }

  /** A fresh object has an empty list, so the graph is kept. */
  lemma NewObjectKeepsGraph(h: Heap)
    requires GraphInv(h)
    ensures GraphInv(NewObject(h))
  {
    var r := NewObject(h);
    assert Disjoint(r.lists) by {
      forall o1, o2, i, j |
        0 <= o1 < |r.lists| && 0 <= o2 < |r.lists| && o1 != o2 && 0 <= i < |r.lists[o1]| && 0 <= j < |r.lists[o2]|
        ensures r.lists[o1][i] != r.lists[o2][j]
      {
        assert o1 < |h.lists| && o2 < |h.lists|;
      }
    }
  }

  /** Marking an object that has no keys yet as an array keeps the graph. */
  lemma SetArrayKeepsGraph(ps: PState, obj: int)
    requires WF(ps) && 0 <= obj < |ps.heap.objects| && ps.heap.lists[obj] == []
    requires GraphInv(ps.heap)
    ensures GraphInv(SetArray(ps, obj).heap)
  {
  }

  // ------------------------------------------------- rjs_obj_pushkey_*

  /** A rjs_obj_pushkey_* call changes only the arena and the out-of-memory
      flag; top never moves back and the flag is never cleared. */
  predicate Touched(ps: PState, ps': PState)
  {
    ps' == ps.(top := ps'.top, oom := ps'.oom, heap := ps'.heap) &&
    ps.top <= ps'.top && (ps.oom ==> ps'.oom)
  }

  /** The key allocation and the name copy every rjs_obj_pushkey_* function
      begins with. The name is the token, or NULL when obj is an array
      (unless `always`, as in rjs_obj_pushkey_null) or when its copy did not
      fit, which raises the out-of-memory flag. */
  function NewKey(ps: PState, obj: int, token: string, always: bool): (r: (PState, bool, Option<string>))
    requires WF(ps) && 0 <= obj < |ps.heap.objects|
    ensures WF(r.0) && Touched(ps, r.0) && r.0.heap == ps.heap
    ensures r.1 <==> ps.top + KEY_SIZE <= ps.memSize
    ensures !r.1 ==> r.0 == ps.(oom := true) && r.2 == None
    ensures r.2.Some? ==> r.2 == Some(token)
    ensures r.1 && !always && ps.heap.objects[obj].isArray ==> r.2 == None && r.0.oom == ps.oom
    ensures r.1 && (always || !ps.heap.objects[obj].isArray) ==>
      (r.2 == None ==> r.0.oom) && (r.2.Some? ==> r.0.oom == ps.oom)
    ensures r.1 ==> (r.2.Some? <==>
      (always || !ps.heap.objects[obj].isArray) && ps.top + KEY_SIZE + Padded(|token| + 1) <= ps.memSize)
    ensures r.1 ==> r.0.top == ps.top + KEY_SIZE + (if r.2.Some? then Padded(|token| + 1) else 0)
  {
    var (ps1, loc) := Alloc(ps, KEY_SIZE);
    if loc == NULL_ID then (ps1, false, None)
    else if !always && ps.heap.objects[obj].isArray then (ps1, true, None)
    else
      var (ps2, name) := PushString(ps1, token);
      (ps2, true, name)
  }

  /** rjs_obj_pushkey: the key goes at the tail of obj's list. */
  function AddKey(ps: PState, obj: int, name: Option<string>, value: Value): (r: PState)
    requires WF(ps) && 0 <= obj < |ps.heap.objects|
    requires value.Obj? ==> -1 <= value.obj < |ps.heap.objects|
    requires ps.heap.objects[obj].isArray ==> name.None? || value.Null?
    ensures WF(r) && r == ps.(heap := r.heap)
    ensures r.heap == LinkKey(ps.heap, obj, KeyNode(name, value, NULL_ID))
    ensures GraphInv(ps.heap) ==> GraphInv(r.heap)
    ensures CNames(ps.heap) && (name.Some? ==> NUL !in name.value) ==> CNames(r.heap)
  {
    if GraphInv(ps.heap) then LinkKeepsGraph(ps.heap, obj, KeyNode(name, value, NULL_ID)); ps.(heap := LinkKey(ps.heap, obj, KeyNode(name, value, NULL_ID)))
    else ps.(heap := LinkKey(ps.heap, obj, KeyNode(name, value, NULL_ID)))
  }

  /** The copy of the name was requested (obj is not an array, or the call
      always copies it) but did not fit. */
  predicate NameFailed(ps: PState, obj: int, always: bool, name: Option<string>)
    requires WF(ps) && 0 <= obj < |ps.heap.objects|
  {
    name.None? && (always || !ps.heap.objects[obj].isArray)
  }

  /** ps' holds one more key, linked at the tail of obj's list, whose name is
      the token, or NULL for an array element or a copy that did not fit. */
  predicate KeyPushed(ps: PState, ps': PState, obj: int, token: string, always: bool)
    requires WF(ps) && 0 <= obj < |ps.heap.objects|
  {
    var n := |ps.heap.keys|;
    |ps'.heap.keys| == n + 1 &&
    ps'.heap == LinkKey(ps.heap, obj, ps'.heap.keys[n]) &&
    (ps'.heap.keys[n].name.Some? ==> ps'.heap.keys[n].name == Some(token)) &&
    (!always && ps.heap.objects[obj].isArray ==> ps'.heap.keys[n].name.None?)
  }

  /** rjs_obj_pushkey_string: fails only when the key does not fit. A name or
      text whose copy does not fit is left NULL, and that raises the
      out-of-memory flag. */
  function PushKeyString(ps: PState, obj: int, token: string, text: string): (r: (PState, bool))
    requires WF(ps) && 0 <= obj < |ps.heap.objects|
    ensures WF(r.0) && Touched(ps, r.0)
    ensures r.1 <==> ps.top + KEY_SIZE <= ps.memSize
    ensures !r.1 ==> r.0 == ps.(oom := true)
    ensures r.1 ==> (KeyPushed(ps, r.0, obj, token, false) &&
      var key := r.0.heap.keys[|ps.heap.keys|];
      key.value.Str? && (key.value.str.Some? ==> key.value.str == Some(text)) &&
      r.0.oom == (ps.oom || key.value.str.None? || NameFailed(ps, obj, false, key.name)))
    ensures GraphInv(ps.heap) ==> GraphInv(r.0.heap)
    ensures CNames(ps.heap) && NUL !in token ==> CNames(r.0.heap)
  {
    var (ps1, ok, name) := NewKey(ps, obj, token, false);
    if !ok then (ps1, false)
    else
      var (ps2, copy) := PushString(ps1, text);
      (AddKey(ps2, obj, name, Str(copy)), true)
  }

  /** rjs_obj_pushkey_number: fails when the key does not fit or when the
      text is not a number rjs_strtod accepts; then no key is linked,
      although the key and its name have taken arena space: whenever the key
      fits, top advances by the key and, when obj is not an array and the
      copy fits, by the padded name. */
  function PushKeyNumber(ps: PState, obj: int, token: string, text: string): (r: (PState, bool))
    requires WF(ps) && 0 <= obj < |ps.heap.objects|
    ensures WF(r.0) && Touched(ps, r.0)
    ensures r.1 <==> ps.top + KEY_SIZE <= ps.memSize && StrToDSpec(text).Some?
    ensures ps.top + KEY_SIZE > ps.memSize ==> r.0 == ps.(oom := true)
    ensures !r.1 ==> r.0.heap == ps.heap
    ensures ps.top + KEY_SIZE <= ps.memSize ==>
      r.0.top == ps.top + KEY_SIZE +
        (if !ps.heap.objects[obj].isArray && ps.top + KEY_SIZE + Padded(|token| + 1) <= ps.memSize
         then Padded(|token| + 1) else 0)
    ensures ps.top + KEY_SIZE <= ps.memSize && StrToDSpec(text).None? ==>
      r.0.oom == (ps.oom || (!ps.heap.objects[obj].isArray && ps.top + KEY_SIZE + Padded(|token| + 1) > ps.memSize))
    ensures r.1 ==> (KeyPushed(ps, r.0, obj, token, false) &&
      var key := r.0.heap.keys[|ps.heap.keys|];
      key.value == Number(StrToDSpec(text).value) &&
      r.0.oom == (ps.oom || NameFailed(ps, obj, false, key.name)))
    ensures GraphInv(ps.heap) ==> GraphInv(r.0.heap)
    ensures CNames(ps.heap) && NUL !in token ==> CNames(r.0.heap)
  {
    var (ps1, ok, name) := NewKey(ps, obj, token, false);
    if !ok then (ps1, false)
    else match StrToDSpec(text)
      case None => (ps1, false)
      case Some(x) => (AddKey(ps1, obj, name, Number(x)), true)
  }

  /** rjs_obj_pushkey_obj: fails only when the key does not fit; the value
      refers to newObj (which may be NULL). */
  function PushKeyObj(ps: PState, obj: int, token: string, newObj: int): (r: (PState, bool))
    requires WF(ps) && 0 <= obj < |ps.heap.objects| && -1 <= newObj < |ps.heap.objects|
    ensures WF(r.0) && Touched(ps, r.0)
    ensures r.1 <==> ps.top + KEY_SIZE <= ps.memSize
    ensures !r.1 ==> r.0 == ps.(oom := true)
    ensures r.1 ==> (KeyPushed(ps, r.0, obj, token, false) &&
      var key := r.0.heap.keys[|ps.heap.keys|];
      key.value == Obj(newObj) && r.0.oom == (ps.oom || NameFailed(ps, obj, false, key.name)))
    ensures GraphInv(ps.heap) ==> GraphInv(r.0.heap)
    ensures CNames(ps.heap) && NUL !in token ==> CNames(r.0.heap)
  {
    var (ps1, ok, name) := NewKey(ps, obj, token, false);
    if !ok then (ps1, false) else (AddKey(ps1, obj, name, Obj(newObj)), true)
  }

  /** rjs_obj_pushkey_bool: fails only when the key does not fit. */
  function PushKeyBool(ps: PState, obj: int, token: string, b: bool): (r: (PState, bool))
    requires WF(ps) && 0 <= obj < |ps.heap.objects|
    ensures WF(r.0) && Touched(ps, r.0)
    ensures r.1 <==> ps.top + KEY_SIZE <= ps.memSize
    ensures !r.1 ==> r.0 == ps.(oom := true)
    ensures r.1 ==> (KeyPushed(ps, r.0, obj, token, false) &&
      var key := r.0.heap.keys[|ps.heap.keys|];
      key.value == Bool(b) && r.0.oom == (ps.oom || NameFailed(ps, obj, false, key.name)))
    ensures GraphInv(ps.heap) ==> GraphInv(r.0.heap)
    ensures CNames(ps.heap) && NUL !in token ==> CNames(r.0.heap)
  {
    var (ps1, ok, name) := NewKey(ps, obj, token, false);
    if !ok then (ps1, false) else (AddKey(ps1, obj, name, Bool(b)), true)
  }

  /** rjs_obj_pushkey_null: fails only when the key does not fit; unlike the
      others it copies the name even inside an array. */
  function PushKeyNull(ps: PState, obj: int, token: string): (r: (PState, bool))
    requires WF(ps) && 0 <= obj < |ps.heap.objects|
    ensures WF(r.0) && Touched(ps, r.0)
    ensures r.1 <==> ps.top + KEY_SIZE <= ps.memSize
    ensures !r.1 ==> r.0 == ps.(oom := true)
    ensures r.1 ==> (KeyPushed(ps, r.0, obj, token, true) &&
      var key := r.0.heap.keys[|ps.heap.keys|];
      key.value == Null && r.0.oom == (ps.oom || NameFailed(ps, obj, true, key.name)))
    ensures GraphInv(ps.heap) ==> GraphInv(r.0.heap)
    ensures CNames(ps.heap) && NUL !in token ==> CNames(r.0.heap)
  {
    var (ps1, ok, name) := NewKey(ps, obj, token, true);
    if !ok then (ps1, false) else (AddKey(ps1, obj, name, Null), true)
  }
}
