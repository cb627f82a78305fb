/** Conversion between C strings and Curry strings (lists of `Char`), and
    the prelude primitives built on it (`prim_label`, `prim_char_repr`).

    A C string is a sequence of `char` that contains a NUL; its text is what
    precedes the first NUL. A Curry string in the graph is a chain of Cons
    cells (tag CTOR+1) whose slot 0 points to a Char node and whose slot 1
    points to the rest, ended by a Nil node (tag CTOR). */
module Strings {
  import opened Machine
  import opened Tags
  import opened Graph

  /** The nodes a list layout reads: the cells and the nodes their slot 0
      points to. */
  ghost function Cells(cells: seq<Node>): set<object>
    reads set j | 0 <= j < |cells| :: cells[j]
  {
    (set j | 0 <= j < |cells| :: cells[j] as object) +
    (set j | 0 <= j < |cells| && cells[j].slot0.Ref? :: cells[j].slot0.node as object)
  }

  /** `cells[j]` is a Cons cell holding `c` and linked to `cells[j + 1]`. */
  ghost predicate ConsAt(cells: seq<Node>, j: nat, c: CChar)
    requires j + 1 < |cells|
    reads cells[j], if cells[j].slot0.Ref? then {cells[j].slot0.node} else {}
  {
    && cells[j].vt == ConsVt && cells[j].tag == CTOR + 1
    && cells[j].slot0.Ref?
    && cells[j].slot0.node.vt == CharVt && cells[j].slot0.node.tag == CTOR
    && cells[j].slot0.node.slot0 == Chr(c)
    && cells[j].slot1 == Ref(cells[j + 1])
  }

  /** `cells` is a Curry string spelling `text`, as the encoder lays it
      out: one Cons cell per character and a final Nil node. */
  ghost predicate Encodes(cells: seq<Node>, text: seq<CChar>)
    reads Cells(cells)
  {
    && |cells| == |text| + 1
    && (forall j :: 0 <= j < |text| ==> ConsAt(cells, j, text[j]))
    && cells[|text|].vt == NilVt && cells[|text|].tag == CTOR
  }

  /** The encoder after `|text|` rounds: `cells` holds the Cons cells built
      so far and the cell the next round will fill, `chars` the Char nodes
      the cells point to. */
  ghost predicate Building(cells: seq<Node>, chars: seq<Node>, text: seq<CChar>)
    reads (set j | 0 <= j < |cells| :: cells[j]), (set j | 0 <= j < |chars| :: chars[j])
  {
    && |cells| == |text| + 1 && |chars| == |text|
    && (forall j :: 0 <= j < |text| ==> cells[j].slot0 == Ref(chars[j]) && ConsAt(cells, j, text[j]))
  }

  /** The cells, and likewise the Char nodes, are pairwise distinct, and no
      Char node is the last cell. */
  ghost predicate Separate(cells: seq<Node>, chars: seq<Node>) {
    && |cells| == |chars| + 1
    && (forall j :: 0 <= j < |chars| ==> chars[j] != cells[|chars|])
    && (forall a, b :: 0 <= a < b < |cells| ==> cells[a] != cells[b])
    && (forall a, b :: 0 <= a < b < |chars| ==> chars[a] != chars[b])
  }

  /** The encoder's state after `n` characters of `str`, none of them the
      NUL. */
  ghost predicate Encoding(cells: seq<Node>, chars: seq<Node>, str: seq<CChar>, n: nat)
    reads (set j | 0 <= j < |cells| :: cells[j]), (set j | 0 <= j < |chars| :: chars[j])
  {
    && NUL in str && n <= Strlen(str)
    && Building(cells, chars, str[..n]) && Separate(cells, chars)
  }

  /** `Cy_CStringToCyString(str, root, max)`: rewrites `root` into the Curry
      string of the first `min(strlen(str), max)` characters of `str`, using
      fresh nodes for the other cells and the characters, and returns the
      terminating Nil node. `cells` is the list it builds, `root` first.
      The `while` loop is `EncodeLoop`, the final write of Nil is
      `EncodeNil`. */
  method CStringToCyString(str: seq<CChar>, root: Node, max: nat)
      returns (nil: Node, ghost cells: seq<Node>)
    requires NUL in str
    modifies root
    ensures Encodes(cells, str[..Min(Strlen(str), max)])
    ensures cells[0] == root && nil == cells[|cells| - 1]
    ensures forall j :: 1 <= j < |cells| ==> fresh(cells[j])
    ensures forall j :: 0 <= j < |cells| - 1 ==> cells[j].slot0.Ref? && fresh(cells[j].slot0.node)
    ensures forall a, b :: 0 <= a < b < |cells| ==> cells[a] != cells[b]
    ensures forall a, b :: 0 <= a < b < |cells| - 1 ==> cells[a].slot0.node != cells[b].slot0.node
  {
    var cur;
    ghost var chars;
    cur, cells, chars := EncodeLoop(str, root, max);
    EncodeNil(cur, cells, chars, str[..Min(Strlen(str), max)]);
    nil := cur;
  }

  /** The encoder's loop: one `EncodeRound` per character, up to the NUL or
      `max` characters, whichever comes first. */
  method EncodeLoop(str: seq<CChar>, root: Node, max: nat)
      returns (cur: Node, ghost cells: seq<Node>, ghost chars: seq<Node>)
    requires NUL in str
    modifies root
    ensures Building(cells, chars, str[..Min(Strlen(str), max)]) && Separate(cells, chars)
    ensures cells[0] == root && cur == cells[|cells| - 1]
    ensures forall j :: 1 <= j < |cells| ==> fresh(cells[j])
    ensures forall j :: 0 <= j < |chars| ==> fresh(chars[j])
    ensures root == cur || fresh(cur)
  {
    var n: nat := 0;
    cur := root;
    cells := [root];
    chars := [];
    while str[n] != NUL && n != max
      invariant n <= max && Encoding(cells, chars, str, n)
      invariant |cells| == n + 1 && cells[0] == root && cells[n] == cur
      invariant forall j :: 1 <= j <= n ==> fresh(cells[j])
      invariant forall j :: 0 <= j < n ==> fresh(chars[j])
      decreases Strlen(str) - n
    {
      ghost var charNode: Node;
      var next;
      next, charNode := EncodeRound(cur, str, n, cells, chars);
      cur := next;
      cells := cells + [next];
      chars := chars + [charNode];
      n := n + 1;
    }
    assert n == Min(Strlen(str), max);
  }

  /** The encoder's last step: the last cell becomes Nil, which completes
      the layout `Building` describes into a Curry string spelling `text`. */
  method EncodeNil(cur: Node, ghost cells: seq<Node>, ghost chars: seq<Node>, ghost text: seq<CChar>)
    requires Building(cells, chars, text) && Separate(cells, chars) && cur == cells[|text|]
    modifies cur
    ensures Encodes(cells, text)
    ensures forall j :: 0 <= j < |text| ==> cells[j].slot0 == Ref(chars[j])
    ensures forall a, b :: 0 <= a < b < |cells| ==> cells[a] != cells[b]
    ensures forall a, b :: 0 <= a < b < |chars| ==> chars[a] != chars[b]
  {
    cur.vt := NilVt;
    cur.tag := CTOR;
    forall j | 0 <= j < |text|
      ensures cells[j].slot0 == Ref(chars[j]) && ConsAt(cells, j, text[j])
    {
      assert old(ConsAt(cells, j, text[j]));
    }
  }

  /** One loop round of the encoder: `PushChar` on the last cell keeps
      `Encoding` with one more character, one more Char node
      and one more cell. */
  method EncodeRound(cur: Node, str: seq<CChar>, n: nat, ghost cells: seq<Node>, ghost chars: seq<Node>)
      returns (next: Node, ghost charNode: Node)
    requires Encoding(cells, chars, str, n) && str[n] != NUL && cur == cells[n]
    modifies cur
    ensures fresh(next) && fresh(charNode)
    ensures Encoding(cells + [next], chars + [charNode], str, n + 1)
  {
    assert n < Strlen(str) && n < |str|;
    next := PushChar(cur, str[n]);
    charNode := cur.slot0.node;
    var cells', chars', text, text' := cells + [next], chars + [charNode], str[..n], str[..n + 1];
    assert ConsAt(cells', n, text'[n]);
    forall j | 0 <= j < n
      ensures cells'[j].slot0 == Ref(chars'[j]) && ConsAt(cells', j, text'[j])
    {
      assert cells[j] != cur && chars[j] != cur && text'[j] == text[j];
      assert ConsAt(cells, j, text[j]);
    }
    assert Building(cells', chars', text');
    SeparateExtend(cells, chars, next, charNode);
  }

  /** Appending a cell and a Char node that are new to both sequences keeps
      them separate. */
  lemma SeparateExtend(cells: seq<Node>, chars: seq<Node>, next: Node, charNode: Node)
    requires Separate(cells, chars) && next !in cells && next !in chars
    requires charNode !in cells && charNode !in chars && charNode != next
    ensures Separate(cells + [next], chars + [charNode])
  {
  }

  /** One round of the encoder: two nodes are allocated, a Char node
      holding `c` and the cell that will hold the rest, and `cell` becomes a
      Cons cell linking them. */
  method PushChar(cell: Node, c: CChar) returns (next: Node)
    modifies cell
    ensures fresh(next) && cell.slot0.Ref? && fresh(cell.slot0.node) && cell.slot0.node != next
    ensures cell.vt == ConsVt && cell.tag == CTOR + 1 && cell.slot1 == Ref(next)
    ensures cell.slot0.node.vt == CharVt && cell.slot0.node.tag == CTOR
    ensures cell.slot0.node.slot0 == Chr(c)
  {
    var charData := new Node(CTOR, CharVt, 0, Chr(c), Null);
    next := new Node(CTOR, NilVt, 0, Null, Null);
    cell.vt := ConsVt;
    cell.tag := CTOR + 1;
    cell.slot0 := Ref(charData);
    cell.slot1 := Ref(next);
  }

  /** A path through a Curry string as `Cy_CyStringToCString` walks it:
      every node but the last is either a forwarding node pointing to the
      next one through slot 0, or a cell whose slot 0 holds a character and
      whose slot 1 points to the next one; the last node is Nil. */
  ghost predicate ListPath(path: seq<Node>)
    reads Cells(path)
  {
    && |path| >= 1
    && path[|path| - 1].vt.NilVt?
    && (forall i :: 0 <= i < |path| - 1 ==> !path[i].vt.NilVt?)
    && (forall i :: 0 <= i < |path| - 1 ==> PathStep(path, i))
  }

  /** `path[i]` leads to `path[i + 1]`. */
  ghost predicate PathStep(path: seq<Node>, i: nat)
    requires i + 1 < |path|
    reads path[i], if path[i].slot0.Ref? then {path[i].slot0.node} else {}
  {
    && (path[i].vt.FwdVt? ==> path[i].slot0 == Ref(path[i + 1]))
    && (!path[i].vt.FwdVt? ==>
          path[i].slot0.Ref? && path[i].slot0.node.slot0.Chr? && path[i].slot1 == Ref(path[i + 1]))
  }

  /** The characters the cells of `path[k..]` hold, forwarding nodes
      contributing none. */
  ghost function Decoded(path: seq<Node>, k: nat): seq<CChar>
    requires ListPath(path) && k < |path|
    reads Cells(path)
    decreases |path| - k
  {
    if k == |path| - 1 then []
    else
      assert PathStep(path, k);
      (if path[k].vt.FwdVt? then [] else [path[k].slot0.node.slot0.c]) + Decoded(path, k + 1)
  }

  /** `Cy_CyStringToCString(root, stream)`: writes the characters of the
      Curry string at `root` to the stream, following forwarding nodes.
      The stream is the returned sequence. */
  method CyStringToCString(root: Node, ghost path: seq<Node>) returns (out: seq<CChar>)
    requires ListPath(path) && path[0] == root
    ensures out == Decoded(path, 0)
  {
    var r := root;
    ghost var k := 0;
    out := [];
    while !r.vt.NilVt?
      invariant 0 <= k < |path| && r == path[k]
      invariant out + Decoded(path, k) == Decoded(path, 0)
      decreases |path| - k
    {
      DecodeRound(path, k, out);
      if r.vt.FwdVt? {
        r := r.slot0.node;
      } else {
        out := out + [r.slot0.node.slot0.c];
        r := r.slot1.node;
      }
      k := k + 1;
    }
    assert k == |path| - 1;
  }

  /** One step of the decoder along a path: a node that is not Nil has a
      successor on the path, and contributes its character (if it is a
      cell) ahead of what the rest of the path decodes to. */
  lemma DecodedUnfold(path: seq<Node>, k: nat)
    requires ListPath(path) && k < |path| && !path[k].vt.NilVt?
    ensures k < |path| - 1 && PathStep(path, k)
    ensures Decoded(path, k) ==
              (if path[k].vt.FwdVt? then [] else [path[k].slot0.node.slot0.c]) + Decoded(path, k + 1)
  {
  }

  /** One loop round of the decoder, from the state at `path[k]` to the
      state at `path[k + 1]`: a forwarding node is followed through slot 0
      and emits nothing, a cell emits its character and is followed through
      slot 1. */
  lemma DecodeRound(path: seq<Node>, k: nat, out: seq<CChar>)
    requires ListPath(path) && k < |path| && !path[k].vt.NilVt?
    ensures k + 1 < |path|
    ensures path[k].vt.FwdVt? ==>
              path[k].slot0 == Ref(path[k + 1]) && out + Decoded(path, k + 1) == out + Decoded(path, k)
    ensures !path[k].vt.FwdVt? ==>
              && path[k].slot0.Ref? && path[k].slot0.node.slot0.Chr? && path[k].slot1 == Ref(path[k + 1])
              && (out + [path[k].slot0.node.slot0.c]) + Decoded(path, k + 1) == out + Decoded(path, k)
  {
    DecodedUnfold(path, k);
  }

  /** The encoder's layout is a path the decoder accepts, and decoding it
      gives back the encoded text. */
  lemma EncodedDecodes(cells: seq<Node>, text: seq<CChar>)
    requires Encodes(cells, text)
    ensures ListPath(cells) && Decoded(cells, 0) == text
  {
    assert ListPath(cells) by {
      forall i | 0 <= i < |cells| - 1
        ensures !cells[i].vt.NilVt? && PathStep(cells, i)
      {
        assert ConsAt(cells, i, text[i]);
      }
    }
    DecodedSuffix(cells, text, 0);
  }

  lemma {:induction false} DecodedSuffix(cells: seq<Node>, text: seq<CChar>, k: nat)
    requires Encodes(cells, text) && ListPath(cells) && k <= |text|
    ensures Decoded(cells, k) == text[k..]
    decreases |text| - k
  {
    if k < |text| {
      assert ConsAt(cells, k, text[k]);
      DecodedSuffix(cells, text, k + 1);
      assert text[k..] == [text[k]] + text[k + 1..];
    }
  }

  /** Encoding a C string and decoding the result gives back its first
      `min(strlen(str), max)` characters. */
  method RoundTrip(str: seq<CChar>, root: Node, max: nat) returns (out: seq<CChar>)
    requires NUL in str
    modifies root
    ensures out == str[..Min(Strlen(str), max)]
  {
    var nil, cells := CStringToCyString(str, root, max);
    ghost var text := str[..Min(Strlen(str), max)];
    EncodedDecodes(cells, text);
    label Before:
    out := CyStringToCString(root, cells);
    // the decoder changes nothing the layout reads
    assert Cells(cells) == old@Before(Cells(cells));
  }

  // ---- Prelude primitives that produce strings ----

  /** `CyPrelude_prim_label`: the root becomes the Curry string of the
      label of its argument. Labels come from vtables outside the model and
      are passed in as a C string; like every C string it is shorter than
      the address space. */
  method PrimLabel(root: Node, labelStr: seq<CChar>) returns (ghost cells: seq<Node>)
    requires NUL in labelStr && |labelStr| <= SIZE_MAX
    modifies root
    ensures Encodes(cells, labelStr[..Strlen(labelStr)]) && cells[0] == root
  {
    var nil;
    nil, cells := CStringToCyString(labelStr, root, SIZE_MAX);
    assert Strlen(labelStr) < |labelStr|;
  }

  const QUOTE: CChar := 39      // '\''
  const DQUOTE: CChar := 34     // '"'
  const BACKSLASH: CChar := 92  // '\\'

  /** `len - 1` on `size_t`: zero wraps around to the largest value. */
  function SizeDecrement(len: nat): nat {
    if len == 0 then SIZE_MAX else len - 1
  }

  /** The text `prim_char_repr` produces for the character `c` whose
      single-quoted label is `labelStr`: a bare `'`, an escaped `\"`, or the
      label without its first character and, of the rest, without the
      last. */
  function CharReprText(c: CChar, labelStr: seq<CChar>): seq<CChar>
    requires NUL in labelStr && labelStr[0] != NUL
  {
    if c == QUOTE then [QUOTE]
    else if c == DQUOTE then [BACKSLASH, DQUOTE]
    else
      var str := labelStr[1..];
      str[..Min(Strlen(str), SizeDecrement(Strlen(str)))]
  }

  /** For a label of the form `'body'` the representation is `body`
      itself, so characters keep the escapes they have between single
      quotes; the single quote loses its escape and the double quote gains
      one. */
  lemma {:induction false} CharReprOfQuotedLabel(c: CChar, body: seq<CChar>, rest: seq<CChar>)
    requires NUL !in body
    ensures var labelStr := [QUOTE] + body + [QUOTE, NUL] + rest;
            CharReprText(c, labelStr) ==
              if c == QUOTE then [QUOTE] else if c == DQUOTE then [BACKSLASH, DQUOTE] else body
  {
    var labelStr := [QUOTE] + body + [QUOTE, NUL] + rest;
    var str := labelStr[1..];
    assert str == body + [QUOTE, NUL] + rest;
    StrlenPrefix(body + [QUOTE], rest);
    assert body + [QUOTE] + [NUL] + rest == str;
  }

  /** The length of a C string is the length of the text before its NUL. */
  lemma {:induction false} StrlenPrefix(text: seq<CChar>, rest: seq<CChar>)
    requires NUL !in text
    ensures Strlen(text + [NUL] + rest) == |text|
    decreases |text|
  {
    if text != [] {
      assert (text + [NUL] + rest)[1..] == text[1..] + [NUL] + rest;
      StrlenPrefix(text[1..], rest);
    }
  }

  /** `CyPrelude_prim_char_repr`: the root becomes the Curry string that
      represents the (normalised) character argument inside a
      double-quoted string. `labelStr` is the argument's label. */
  method PrimCharRepr(root: Node, labelStr: seq<CChar>) returns (ghost cells: seq<Node>)
    requires root.slot0.Ref? && root.slot0.node.slot0.Chr?
    requires NUL in labelStr && labelStr[0] != NUL
    modifies root
    ensures Encodes(cells, CharReprText(old(root.slot0.node.slot0.c), labelStr))
    ensures cells[0] == root
  {
    var c := root.slot0.node.slot0.c;
    var nil;
    if c == QUOTE {
      nil, cells := CStringToCyString([QUOTE, NUL], root, SIZE_MAX);
      assert Strlen([QUOTE, NUL]) == 1;
    } else if c == DQUOTE {
      nil, cells := CStringToCyString([BACKSLASH, DQUOTE, NUL], root, SIZE_MAX);
      assert Strlen([BACKSLASH, DQUOTE, NUL]) == 2;
    } else {
      var str := labelStr[1..];
      var len := Strlen(str);
      nil, cells := CStringToCyString(str, root, SizeDecrement(len));
    }
  }
}
