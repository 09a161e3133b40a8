/** Printed XML documents, and what the message framer makes of them. */
module XmlDocuments {
  import opened Sequences
  import opened XmlFraming

  /** Markup stands for every form of `<!`: comments, CDATA sections and document types. */
  datatype Node =
    | Element(name: string, attrs: string, children: seq<Node>)
    | EmptyElement(name: string, attrs: string)
    | Text(text: string)
    | Instruction(body: string)
    | Markup(body: string)

  /** Everything in front of the root element, and the root element. */
  datatype Document = Document(prolog: seq<Node>, root: Node)

  // ---------------------------------------------------------------------------------------
  // Well-formedness, as far as brackets are concerned
  // ---------------------------------------------------------------------------------------

  /** XML keeps '<' out of text and attribute values, but not '>'. Instructions, comments, CDATA
      sections and document types may hold either. */
  predicate NoOpen(t: string) {
    forall i :: 0 <= i < |t| ==> t[i] != '<'
  }

  /** The last character of t, or prev when t is empty. */
  function LastOf(prev: char, t: string): char {
    if t == [] then prev else t[|t| - 1]
  }

  predicate ValidName(name: string) {
    name != "" && forall i :: 0 <= i < |name| ==> name[i] != '<' && name[i] != '>' && name[i] != '/' && name[i] != '?'
  }

  predicate Slashy(c: char) { c == '/' || c == '?' }

  predicate ValidNode(n: Node)
    decreases n, 0
  {
    match n
    case Element(name, attrs, children) =>
      ValidName(name) && NoOpen(attrs) && !Slashy(LastOf(' ', attrs)) && ValidNodes(children)
    case EmptyElement(name, attrs) => ValidName(name) && NoOpen(attrs)
    case Text(text) => NoOpen(text)
    case Instruction(body) => true
    case Markup(body) => !Slashy(LastOf('!', body)) && LastOf('!', body) != '<'
  }

  predicate ValidNodes(ns: seq<Node>)
    decreases ns, 1
  {
    ns == [] || (ValidNode(ns[0]) && ValidNodes(ns[1..]))
  }

  predicate IsSpace(c: char) { c == ' ' || c == '\t' || c == '\r' || c == '\n' }

  /** What may stand in front of the root: white space, instructions and `<!` markup. */
  predicate ValidProlog(ns: seq<Node>) {
    forall n :: n in ns ==>
      match n
      case Text(text) => forall i :: 0 <= i < |text| ==> IsSpace(text[i])
      case Instruction(_) => ValidNode(n)
      case Markup(_) => ValidNode(n)
      case _ => false
  }

  predicate ValidDocument(d: Document) {
    ValidProlog(d.prolog) && (d.root.Element? || d.root.EmptyElement?) && ValidNode(d.root)
  }

  // ---------------------------------------------------------------------------------------
  // Printing
  // ---------------------------------------------------------------------------------------

  /** A node without its final '>'. */
  function Body(n: Node): string
    requires !n.Text?
    decreases n, 0
  {
    match n
    case Element(name, attrs, children) => "<" + (name + attrs) + ">" + PrintAll(children) + "</" + name
    case EmptyElement(name, attrs) => "<" + (name + attrs) + "/"
    case Instruction(body) => "<?" + body + "?"
    case Markup(body) => "<!" + body
  }

  function Print(n: Node): string
    decreases n, 1
  {
    if n.Text? then n.text else Body(n) + ">"
  }

  function PrintAll(ns: seq<Node>): string
    decreases ns, 2
  {
    if ns == [] then "" else Print(ns[0]) + PrintAll(ns[1..])
  }

  function PrintDocument(d: Document): string {
    PrintAll(d.prolog) + Print(d.root)
  }

  function PrintDocuments(ds: seq<Document>): string {
    if ds == [] then "" else PrintDocument(ds[0]) + PrintDocuments(ds[1..])
  }

  function Prints(ds: seq<Document>): seq<string> {
    if ds == [] then [] else [PrintDocument(ds[0])] + Prints(ds[1..])
  }

  /** Whether the framer takes ch behind prev for an opening, or for a closing that is none. */
  function Open(prev: char, ch: char): int {
    if prev == '<' && ch != '/' then 1 else 0
  }

  function Stray(prev: char, ch: char): int {
    if (ch == '>' && Slashy(prev)) || (ch == '/' && prev == '<') then 1 else 0
  }

  /** How many openings the framer sees in t. prev is what stands before t. */
  function Opens(prev: char, t: string): (n: int)
    ensures n >= 0
    decreases |t|
  {
    if t == [] then 0 else Opens(t[0], t[1..]) + Open(prev, t[0])
  }

  /** How many openings the node holds that nothing closes: its `<!` constructs, and in them and in
      instructions whatever looks like the start of a tag. */
  function Marks(n: Node): nat
    decreases n, 0
  {
    match n
    case Element(_, _, children) => MarksAll(children)
    case Markup(body) => 1 + Opens('!', body)
    case Instruction(body) => Opens('?', body + "?")
    case _ => 0
  }

  function MarksAll(ns: seq<Node>): nat
    decreases ns, 1
  {
    if ns == [] then 0 else Marks(ns[0]) + MarksAll(ns[1..])
  }

  function DocumentMarks(d: Document): nat {
    MarksAll(d.prolog) + Marks(d.root)
  }

  /** How many closings the framer sees in t: every '>' directly behind '/' or '?', and where t may
      hold a '<', every '/' directly behind one. None of them closes anything. */
  function Strays(prev: char, t: string): (n: int)
    ensures n >= 0
    decreases |t|
  {
    if t == [] then 0 else Strays(t[0], t[1..]) + Stray(prev, t[0])
  }

  /** The strays in the texts, attribute parts, instructions and markup of a node behind prev. */
  function StraysIn(prev: char, n: Node): (k: int)
    ensures k >= 0
    decreases n, 0
  {
    match n
    case Element(name, attrs, children) => Strays(LastOf(' ', name), attrs) + StraysAll('>', children)
    case EmptyElement(name, attrs) => Strays(LastOf(' ', name), attrs)
    case Text(text) => Strays(prev, text)
    case Instruction(body) => Strays('?', body + "?")
    case Markup(body) => Strays('!', body)
  }

  function StraysAll(prev: char, ns: seq<Node>): (k: int)
    ensures k >= 0
    decreases ns, 1
  {
    if ns == [] then 0 else StraysIn(prev, ns[0]) + StraysAll(LastOf(prev, Print(ns[0])), ns[1..])
  }

  function DocumentStrays(d: Document): int {
    StraysAll(START.last, d.prolog) + StraysIn('>', d.root)
  }

  // ---------------------------------------------------------------------------------------
  // Where a message could end inside a document
  // ---------------------------------------------------------------------------------------

  /** Only a '>' that does not follow a '?' can end a message, and it does when the elements open
      there and the openings so far are as many as the strays so far. k is the difference in front of
      t, which the strays of t use up at its i-th character. */
  predicate EndsAt(prev: char, t: string, k: int, i: nat)
    requires i < |t|
  {
    t[i] == '>' && LastOf(prev, t[..i]) != '?' && Strays(prev, t[..i + 1]) == k + Opens(prev, t[..i + 1])
  }

  predicate QuietText(prev: char, t: string, k: int) {
    forall i :: 0 <= i < |t| ==> !EndsAt(prev, t, k, i)
  }

  /** No message ends in a node before its closing '>'. */
  predicate QuietBody(n: Node, k: int)
    requires !n.Text?
    decreases n, 0
  {
    match n
    case Element(name, attrs, children) =>
      var inner := k + 1 - Strays(LastOf(' ', name), attrs);
      QuietText(LastOf(' ', name), attrs, k + 1) && inner != 0 && QuietAll('>', children, inner)
    case EmptyElement(name, attrs) => QuietText(LastOf(' ', name), attrs, k + 1)
    case Instruction(body) => QuietText('?', body + "?", k + 1)
    case Markup(body) => QuietText('!', body, k + 1)
  }

  predicate Quiet(prev: char, n: Node, k: int)
    decreases n, 1
  {
    if n.Text? then QuietText(prev, n.text, k)
    else QuietBody(n, k) && (n.Instruction? || k + Marks(n) != StraysIn(prev, n))
  }

  predicate QuietAll(prev: char, ns: seq<Node>, k: int)
    decreases ns, 2
  {
    ns == [] ||
    (Quiet(prev, ns[0], k) &&
     QuietAll(LastOf(prev, Print(ns[0])), ns[1..], k + Marks(ns[0]) - StraysIn(prev, ns[0])))
  }

  /** No message ends before the last character of the document. */
  predicate QuietDocument(d: Document) {
    && !d.root.Text?
    && QuietAll(START.last, d.prolog, 0)
    && QuietBody(d.root, MarksAll(d.prolog) - StraysAll(START.last, d.prolog))
  }

  lemma {:induction false} StraysPrefix(prev: char, t: string, i: nat)
    requires i <= |t|
    ensures Strays(prev, t[..i]) <= Strays(prev, t)
    decreases |t|
  {
    if i > 0 {
      assert t[..i][1..] == t[1..][..i - 1];
      StraysPrefix(t[0], t[1..], i - 1);
    }
  }

  /** Without strays nothing ends as long as something is open. */
  lemma NoStraysQuietText(prev: char, t: string, k: int)
    requires Strays(prev, t) == 0 && k >= 1
    ensures QuietText(prev, t, k)
  {
    forall i | 0 <= i < |t|
      ensures !EndsAt(prev, t, k, i)
    {
      StraysPrefix(prev, t, i + 1);
    }
  }

  lemma {:induction false} NoStraysQuietBody(prev: char, n: Node, k: int)
    requires !n.Text? && StraysIn(prev, n) == 0 && k >= 0
    ensures QuietBody(n, k)
    decreases n, 0
  {
    match n
    case Element(name, attrs, children) =>
      NoStraysQuietText(LastOf(' ', name), attrs, k + 1);
      NoStraysQuiet('>', children, k + 1);
    case EmptyElement(name, attrs) => NoStraysQuietText(LastOf(' ', name), attrs, k + 1);
    case Instruction(body) => NoStraysQuietText('?', body + "?", k + 1);
    case Markup(body) => NoStraysQuietText('!', body, k + 1);
  }

  lemma {:induction false} NoStraysQuiet(prev: char, ns: seq<Node>, k: int)
    requires StraysAll(prev, ns) == 0 && k >= 1
    ensures QuietAll(prev, ns, k)
    decreases ns, 1
  {
    if ns != [] {
      var n := ns[0];
      if n.Text? {
        NoStraysQuietText(prev, n.text, k);
      } else {
        NoStraysQuietBody(prev, n, k);
      }
      NoStraysQuiet(LastOf(prev, Print(n)), ns[1..], k + Marks(n));
    }
  }

  /** In front of the root nothing need be open. */
  lemma {:induction false} NoStraysQuietProlog(prev: char, ns: seq<Node>, k: int)
    requires ValidProlog(ns) && StraysAll(prev, ns) == 0 && k >= 0
    ensures QuietAll(prev, ns, k)
    decreases |ns|
  {
    if ns != [] {
      var n := ns[0];
      assert n in ns && forall m :: m in ns[1..] ==> m in ns;
      if n.Text? {
        assert forall i :: 0 <= i < |n.text| ==> IsSpace(n.text[i]);
      } else {
        NoStraysQuietBody(prev, n, k);
      }
      NoStraysQuietProlog(LastOf(prev, Print(n)), ns[1..], k + Marks(n));
    }
  }

  lemma {:induction false} PrologIsValid(ns: seq<Node>)
    requires ValidProlog(ns)
    ensures ValidNodes(ns)
    decreases |ns|
  {
    if ns != [] {
      assert ns[0] in ns && forall m :: m in ns[1..] ==> m in ns;
      if ns[0].Text? {
        assert forall i :: 0 <= i < |ns[0].text| ==> IsSpace(ns[0].text[i]);
      }
      PrologIsValid(ns[1..]);
    }
  }

  // ---------------------------------------------------------------------------------------
  // Scanning the pieces
  // ---------------------------------------------------------------------------------------

  /** A scan over s that moves the count by delta and completes no message exactly if quiet. */
  predicate Leaves(st: Scan, s: string, delta: int, quiet: bool) {
    && After(st, s) == Scan(LastOf(st.last, s), st.depth + delta)
    && LastOf(st.last, s) != '<'
    && (Silent(st, s) <==> quiet)
  }

  lemma LeavesAppend(st: Scan, a: string, da: int, qa: bool, b: string, db: int, qb: bool)
    requires Leaves(st, a, da, qa) && Leaves(After(st, a), b, db, qb)
    ensures Leaves(st, a + b, da + db, qa && qb)
    ensures After(st, a + b) == After(After(st, a), b)
  {
    AfterAppend(st, a, b);
  }

  /** Each opening raises the count and each stray lowers it. */
  lemma {:induction false} FreeScan(st: Scan, t: string)
    requires LastOf(st.last, t) != '<'
    ensures Leaves(st, t, Opens(st.last, t) - Strays(st.last, t), QuietText(st.last, t, st.depth))
    decreases |t|
  {
    if t != [] {
      FreeScan(Next(st, t[0]), t[1..]);
      QuietTextCons(st.last, t, st.depth);
    }
  }

  /** Text, attributes and the like have no openings. */
  lemma TextScan(st: Scan, t: string)
    requires NoOpen(t) && st.last != '<'
    ensures Leaves(st, t, -Strays(st.last, t), QuietText(st.last, t, st.depth))
  {
    NoOpens(st.last, t);
    FreeScan(st, t);
  }

  lemma {:induction false} NoOpens(prev: char, t: string)
    requires NoOpen(t) && prev != '<'
    ensures Opens(prev, t) == 0
    decreases |t|
  {
    if t != [] {
      NoOpens(t[0], t[1..]);
    }
  }

  lemma QuietTextCons(prev: char, t: string, k: int)
    requires t != []
    ensures var fall := Stray(prev, t[0]) - Open(prev, t[0]);
            QuietText(prev, t, k) <==>
            !(t[0] == '>' && prev != '?' && fall == k) && QuietText(t[0], t[1..], k - fall)
  {
    var fall := Stray(prev, t[0]) - Open(prev, t[0]);
    assert t[..1][1..] == [] && Strays(prev, t[..1]) - Opens(prev, t[..1]) == fall && t[..0] == [];
    assert EndsAt(prev, t, k, 0) <==> t[0] == '>' && prev != '?' && fall == k;
    var t' := t[1..];
    if !QuietText(t[0], t', k - fall) {
      var i :| 0 <= i < |t'| && EndsAt(t[0], t', k - fall, i);
      EndsAtCons(prev, t, k, i);
      assert EndsAt(prev, t, k, i + 1);
    }
    if !QuietText(prev, t, k) {
      var i :| 0 <= i < |t| && EndsAt(prev, t, k, i);
      if i > 0 {
        EndsAtCons(prev, t, k, i - 1);
        assert EndsAt(t[0], t', k - fall, i - 1);
      }
    }
  }

  lemma EndsAtCons(prev: char, t: string, k: int, i: nat)
    requires i < |t| - 1
    ensures EndsAt(prev, t, k, i + 1) <==> EndsAt(t[0], t[1..], k - (Stray(prev, t[0]) - Open(prev, t[0])), i)
  {
    assert t[..i + 1][1..] == t[1..][..i] && t[..i + 2][1..] == t[1..][..i + 1];
  }

  /** A stretch without brackets changes nothing, at any count. */
  lemma {:induction false} PlainScan(st: Scan, t: string)
    requires st.last != '<' && forall i :: 0 <= i < |t| ==> t[i] != '<' && t[i] != '>'
    ensures Leaves(st, t, 0, true) && Strays(st.last, t) == 0
    decreases |t|
  {
    if t != [] {
      PlainScan(Next(st, t[0]), t[1..]);
    }
  }

  /** One character, and two of which the first opens a bracket. */
  lemma OneScan(st: Scan, x: char)
    ensures After(st, [x]) == Next(st, x)
    ensures Silent(st, [x]) <==> !Ends(st, x)
  {
    assert [x][1..] == [];
  }

  lemma OpenScan(st: Scan, y: char)
    requires st.last != '<' && y != '<' && y != '>'
    ensures Leaves(st, ['<', y], if y == '/' then -1 else 1, true)
  {
    assert ['<', y][1..] == [y] && [y][1..] == [];
    assert After(Next(st, '<'), [y]) == Next(Next(st, '<'), y);
    assert Silent(Next(st, '<'), [y]) <==> !Ends(Next(st, '<'), y);
  }

  /** `<` and the tag body raise the count by one. */
  lemma TagScan(st: Scan, name: string, attrs: string)
    requires ValidName(name) && NoOpen(attrs) && st.last != '<'
    ensures var strays := Strays(LastOf(' ', name), attrs);
            Leaves(st, "<" + (name + attrs), 1 - strays, QuietText(LastOf(' ', name), attrs, st.depth + 1))
    ensures LastOf(st.last, "<" + (name + attrs)) == LastOf(LastOf(' ', name), attrs)
  {
    hide QuietText;
    var head := ['<', name[0]];
    var strays := Strays(LastOf(' ', name), attrs);
    OpenScan(st, name[0]);
    PlainScan(After(st, head), name[1..]);
    LeavesAppend(st, head, 1, true, name[1..], 0, true);
    TextScan(After(st, head + name[1..]), attrs);
    LeavesAppend(st, head + name[1..], 1, true, attrs, -strays,
                 QuietText(LastOf(' ', name), attrs, st.depth + 1));
    assert head + name[1..] + attrs == "<" + (name + attrs);
  }

  /** A closing tag lowers it again. */
  lemma CloseScan(st: Scan, name: string)
    requires ValidName(name) && st.last != '<'
    ensures Leaves(st, "</" + name, -1, true) && LastOf(st.last, "</" + name) == LastOf(' ', name)
  {
    OpenScan(st, '/');
    PlainScan(After(st, ['<', '/']), name);
    LeavesAppend(st, ['<', '/'], -1, true, name, 0, true);
    assert ['<', '/'] + name == "</" + name;
  }

  /** `<?` or `<!` with what follows. */
  lemma MarkScan(st: Scan, c: char, body: string)
    requires (c == '?' || c == '!') && LastOf(c, body) != '<' && st.last != '<'
    ensures Leaves(st, ['<', c] + body, 1 + Opens(c, body) - Strays(c, body), QuietText(c, body, st.depth + 1))
    ensures LastOf(st.last, ['<', c] + body) == LastOf(c, body)
  {
    OpenScan(st, c);
    FreeScan(After(st, ['<', c]), body);
    LeavesAppend(st, ['<', c], 1, true, body, Opens(c, body) - Strays(c, body), QuietText(c, body, st.depth + 1));
  }

  /** Up to its last character: what the closing '>' leaves of the count is what was there, one
      more for every mark and one less for every stray. */
  predicate Closes(n: Node, st: Scan)
    requires !n.Text?
  {
    var e := After(st, Body(n));
    && Leaves(st, Body(n), e.depth - st.depth, QuietBody(n, st.depth))
    && Next(e, '>').depth == st.depth + Marks(n) - StraysIn(st.last, n)
    && (e.last == '?' <==> n.Instruction?)
  }

  lemma {:induction false} BodyScan(n: Node, st: Scan)
    requires !n.Text? && ValidNode(n) && st.last != '<'
    ensures Closes(n, st)
    decreases n, 0
  {
    hide QuietText;
    match n
    case Element(name, attrs, children) => ElementScan(n, st);
    case EmptyElement(name, attrs) =>
      var open := "<" + (name + attrs);
      var strays := Strays(LastOf(' ', name), attrs);
      TagScan(st, name, attrs);
      PlainScan(After(st, open), "/");
      LeavesAppend(st, open, 1 - strays, QuietBody(n, st.depth), "/", 0, true);
    case Instruction(body) =>
      MarkScan(st, '?', body + "?");
      AppendAssoc("<?", body, "?");
      assert ['<', '?'] + (body + "?") == Body(n);
    case Markup(body) => MarkScan(st, '!', body);
  }

  lemma {:induction false} ElementScan(n: Node, st: Scan)
    requires n.Element? && ValidNode(n) && st.last != '<'
    ensures Closes(n, st)
    decreases n, 0, 0
  {
    hide QuietText;
    var open, inner := "<" + (n.name + n.attrs), PrintAll(n.children);
    var s0 := Strays(LastOf(' ', n.name), n.attrs);
    var s1 := StraysAll('>', n.children);
    var m1 := MarksAll(n.children);
    TagScan(st, n.name, n.attrs);
    OneScan(After(st, open), '>');
    var q0 := QuietText(LastOf(' ', n.name), n.attrs, st.depth + 1);
    var q1 := st.depth + 1 - s0 != 0;
    LeavesAppend(st, open, 1 - s0, q0, ">", 0, q1);
    var st2 := After(st, open + ">");
    NodesScan(n.children, st2);
    var q2 := QuietAll('>', n.children, st2.depth);
    LeavesAppend(st, open + ">", 1 - s0, q0 && q1, inner, m1 - s1, q2);
    var st3 := After(st, open + ">" + inner);
    CloseScan(st3, n.name);
    LeavesAppend(st, open + ">" + inner, 1 - s0 + m1 - s1, q0 && q1 && q2, "</" + n.name, -1, true);
    AppendAssoc(open + ">" + inner, "</", n.name);
  }

  lemma {:induction false} NodeScan(n: Node, st: Scan)
    requires ValidNode(n) && st.last != '<'
    ensures Leaves(st, Print(n), Marks(n) - StraysIn(st.last, n), Quiet(st.last, n, st.depth))
    decreases n, 1
  {
    if n.Text? {
      TextScan(st, n.text);
    } else {
      BodyScan(n, st);
      var e := After(st, Body(n));
      OneScan(e, '>');
      LeavesAppend(st, Body(n), e.depth - st.depth, QuietBody(n, st.depth),
                   ">", Next(e, '>').depth - e.depth, !Ends(e, '>'));
    }
  }

  lemma {:induction false} NodesScan(ns: seq<Node>, st: Scan)
    requires ValidNodes(ns) && st.last != '<'
    ensures Leaves(st, PrintAll(ns), MarksAll(ns) - StraysAll(st.last, ns), QuietAll(st.last, ns, st.depth))
    decreases ns, 2
  {
    if ns != [] {
      var n := ns[0];
      var st' := After(st, Print(n));
      NodeScan(n, st);
      NodesScan(ns[1..], st');
      LeavesAppend(st, Print(n), Marks(n) - StraysIn(st.last, n), Quiet(st.last, n, st.depth),
                   PrintAll(ns[1..]), MarksAll(ns[1..]) - StraysAll(st'.last, ns[1..]),
                   QuietAll(st'.last, ns[1..], st'.depth));
    }
  }

  // ---------------------------------------------------------------------------------------
  // Documents
  // ---------------------------------------------------------------------------------------

  /** The document, whatever follows it, is framed as one message. */
  predicate FramedWhole(d: Document) {
    FrameEnd(START, PrintDocument(d)) == |PrintDocument(d)|
  }

  /** The document up to its last character. */
  function Inside(d: Document): string
    requires !d.root.Text?
  {
    PrintAll(d.prolog) + Body(d.root)
  }

  lemma DocumentScan(d: Document)
    requires ValidDocument(d)
    ensures var e := After(START, Inside(d));
            && (Silent(START, Inside(d)) <==> QuietDocument(d))
            && (DocumentStrays(d) == 0 ==> QuietDocument(d))
            && Next(e, '>').depth == DocumentMarks(d) - DocumentStrays(d) && e.last != '?'
    ensures PrintDocument(d) == Inside(d) + ">" && PrintDocument(d) != ""
  {
    var prolog, body := PrintAll(d.prolog), Body(d.root);
    PrologIsValid(d.prolog);
    NodesScan(d.prolog, START);
    var st := After(START, prolog);
    BodyScan(d.root, st);
    var e := After(st, body);
    LeavesAppend(START, prolog, MarksAll(d.prolog) - StraysAll(START.last, d.prolog), QuietAll(START.last, d.prolog, 0),
                 body, e.depth - st.depth, QuietBody(d.root, st.depth));
    if DocumentStrays(d) == 0 {
      NoStraysQuietProlog(START.last, d.prolog, 0);
      NoStraysQuietBody('>', d.root, st.depth);
    }
    AppendAssoc(prolog, body, ">");
  }

  /** A printed document is framed as one message exactly when its marks and its strays cancel
      out over the whole document, and at no earlier possible end together with the elements open
      there. Without marks that is: exactly when it has no stray. Without strays: exactly when it
      has no mark; and with one the framer finds no end in it. */
  lemma DocumentFrame(d: Document)
    requires ValidDocument(d)
    ensures FramedWhole(d) <==> QuietDocument(d) && DocumentMarks(d) == DocumentStrays(d)
    ensures DocumentMarks(d) == 0 ==> (FramedWhole(d) <==> DocumentStrays(d) == 0)
    ensures DocumentStrays(d) == 0 ==> (FramedWhole(d) <==> DocumentMarks(d) == 0)
    ensures DocumentStrays(d) == 0 && DocumentMarks(d) != 0 ==> Silent(START, PrintDocument(d))
  {
    DocumentScan(d);
    var inside := Inside(d);
    if Silent(START, inside) {
      ScanStep(inside, '>', "");
      assert inside + [ '>' ] + "" == PrintDocument(d);
    } else {
      FrameEndPrefix(START, inside, ">");
    }
  }

  lemma WholeWithTail(d: Document, tail: string)
    requires FramedWhole(d) && PrintDocument(d) != ""
    ensures FrameEnd(START, PrintDocument(d) + tail) == |PrintDocument(d)|
  {
    FrameEndPrefix(START, PrintDocument(d), tail);
  }

  /** Framing inverts printing, in front of any further input. */
  lemma {:induction false} FramesOfDocuments(ds: seq<Document>, tail: string)
    requires forall d :: d in ds ==> ValidDocument(d) && FramedWhole(d)
    ensures Frames(PrintDocuments(ds) + tail) ==
            Framed(Prints(ds) + Frames(tail).frames, Frames(tail).rest)
    decreases |ds|
  {
    if ds == [] {
      assert "" + tail == tail;
    } else {
      var p, more := PrintDocument(ds[0]), PrintDocuments(ds[1..]) + tail;
      assert ds[0] in ds && forall d :: d in ds[1..] ==> d in ds;
      DocumentScan(ds[0]);
      WholeWithTail(ds[0], more);
      FramesOfDocuments(ds[1..], tail);
      AppendAssoc(p, PrintDocuments(ds[1..]), tail);
      SplitAppend(p, more, |p|);
      AppendAssoc([p], Prints(ds[1..]), Frames(tail).frames);
    }
  }

  /** Documents come back as they were printed exactly when each of them is framed whole, that is,
      when its marks and strays cancel out at its end and nowhere before it; where no document has
      both, exactly when none has either. */
  lemma {:induction false} FramingInvertsPrinting(ds: seq<Document>)
    requires forall d :: d in ds ==> ValidDocument(d)
    ensures Frames(PrintDocuments(ds)) == Framed(Prints(ds), "") <==> forall d :: d in ds ==> FramedWhole(d)
    ensures Frames(PrintDocuments(ds)) == Framed(Prints(ds), "") <==>
            forall d :: d in ds ==> QuietDocument(d) && DocumentMarks(d) == DocumentStrays(d)
    ensures (forall d :: d in ds ==> DocumentMarks(d) == 0 || DocumentStrays(d) == 0) ==>
              (Frames(PrintDocuments(ds)) == Framed(Prints(ds), "") <==>
               forall d :: d in ds ==> DocumentMarks(d) == 0 && DocumentStrays(d) == 0)
  {
    forall d | d in ds
      ensures FramedWhole(d) <==> QuietDocument(d) && DocumentMarks(d) == DocumentStrays(d)
      ensures DocumentMarks(d) == 0 || DocumentStrays(d) == 0 ==>
                (FramedWhole(d) <==> DocumentMarks(d) == 0 && DocumentStrays(d) == 0)
    {
      DocumentFrame(d);
    }
    if forall d :: d in ds ==> FramedWhole(d) {
      FramesOfDocuments(ds, "");
      assert PrintDocuments(ds) + "" == PrintDocuments(ds);
    } else {
      BrokenIsNeverFramed(ds);
    }
  }

  lemma {:induction false} BrokenIsNeverFramed(ds: seq<Document>)
    requires forall d :: d in ds ==> ValidDocument(d)
    requires exists d :: d in ds && !FramedWhole(d)
    ensures Frames(PrintDocuments(ds)).frames != Prints(ds)
    decreases |ds|
  {
    var p, more := PrintDocument(ds[0]), PrintDocuments(ds[1..]);
    assert ds[0] in ds;
    DocumentScan(ds[0]);
    if FramedWhole(ds[0]) {
      WholeWithTail(ds[0], more);
      SplitAppend(p, more, |p|);
      assert forall d :: d in ds[1..] ==> d in ds;
      BrokenIsNeverFramed(ds[1..]);
      assert Frames(p + more).frames[1..] == Frames(more).frames;
      assert Prints(ds)[1..] == Prints(ds[1..]);
    } else {
      BrokenIsNoFrame(p, more);
    }
  }

  lemma BrokenIsNoFrame(p: string, more: string)
    requires FrameEnd(START, p) != |p|
    ensures Frames(p + more).frames == [] || Frames(p + more).frames[0] != p
  {
    if Silent(START, p) {
      FrameEndAppend(START, p, more);
    } else {
      FrameEndPrefix(START, p, more);
    }
  }

  /** A document that is one element around one text. */
  function Around(text: string): Document {
    Document([], Element("a", "", [Text(text)]))
  }

  lemma TextAlone(t: Node)
    requires t.Text? && NoOpen(t.text)
    ensures ValidNodes([t]) && MarksAll([t]) == 0 && StraysAll('>', [t]) == Strays('>', t.text) && PrintAll([t]) == t.text
  {
    hide Strays, NoOpen;
    var ns := [t];
    assert ns[1..] == [];
    assert ValidNodes(ns[1..]) && MarksAll(ns[1..]) == 0 && PrintAll(ns[1..]) == "";
    assert StraysAll(LastOf('>', Print(t)), ns[1..]) == 0;
  }

  lemma ElementAround(text: string)
    requires NoOpen(text)
    ensures var root := Around(text).root;
            && ValidNode(root) && Marks(root) == 0 && StraysIn('>', root) == Strays('>', text)
            && Print(root) == "<a>" + text + "</a>"
  {
    TextAlone(Text(text));
    hide PrintAll, StraysAll, MarksAll, ValidNodes;
    assert Strays('a', "") == 0;
    assert "<" + ("a" + "") + ">" == "<a>" && "</" + "a" + ">" == "</a>";
    AppendAssoc("<a>" + text, "</" + "a", ">");
  }

  lemma AroundText(text: string)
    requires NoOpen(text)
    ensures ValidDocument(Around(text)) && DocumentMarks(Around(text)) == 0
    ensures DocumentStrays(Around(text)) == Strays('>', text)
    ensures PrintDocument(Around(text)) == "<a>" + text + "</a>"
  {
    hide Strays, StraysIn, ValidNode, Marks, Print;
    ElementAround(text);
    assert PrintDocument(Around(text)) == "" + Print(Around(text).root);
  }

  /** `<a>/></a>` is an XML document without `<!`, and the framer does not take it whole. */
  lemma StrayEndsDocument()
    ensures ValidDocument(Around("/>")) && DocumentMarks(Around("/>")) == 0 && !FramedWhole(Around("/>"))
    ensures PrintDocument(Around("/>")) == "<a>/></a>"
  {
    hide ValidDocument, DocumentMarks, DocumentStrays, Around, PrintDocument, FramedWhole, Silent;
    assert NoOpen("/>");
    assert "/>"[1..] == ">" && ">"[1..] == "";
    assert Strays('/', ">") == 1 && Strays('>', "/>") == 1;
    AroundText("/>");
    DocumentFrame(Around("/>"));
  }

  const MARK_AND_STRAY := [Markup("x"), Text("/>")]

  lemma MarkThenStray()
    ensures var ns := MARK_AND_STRAY;
            ValidNodes(ns) && MarksAll(ns) == 1 && StraysAll('>', ns) == 1 && QuietAll('>', ns, 1)
  {
    var mark, text := Markup("x"), Text("/>");
    assert MARK_AND_STRAY[1..] == [text];
    assert "/>"[1..] == ">" && ">"[1..] == "" && "x"[1..] == "";
    assert Strays('/', ">") == 1 && Strays('>', "/>") == 1 && Strays('!', "x") == 0 && Opens('!', "x") == 0;
    assert LastOf('>', Print(mark)) == '>';
    TextAlone(text);
    assert "/>"[..2] == "/>" && QuietText('>', "/>", 2);
    var rest: seq<Node> := [text][1..];
    assert rest == [] && QuietAll(LastOf('>', Print(text)), rest, 1) && QuietAll('>', [text], 2);
    assert Quiet('>', mark, 1);
  }

  /** In `<a><!x>/></a>` the `<!` and the stray behind it cancel out, and the framer takes the
      document whole. */
  lemma MarkAndStrayCancel()
    ensures var d := Document([], Element("a", "", MARK_AND_STRAY));
            ValidDocument(d) && DocumentMarks(d) == 1 && FramedWhole(d)
  {
    hide FramedWhole, MARK_AND_STRAY;
    var d := Document([], Element("a", "", MARK_AND_STRAY));
    MarkThenStray();
    assert Strays('a', "") == 0 && QuietText('a', "", 1) && QuietBody(d.root, 0);
    DocumentFrame(d);
  }

  // ---------------------------------------------------------------------------------------
  // A document with marks blocks everything behind it
  // ---------------------------------------------------------------------------------------

  predicate Unframed(ds: seq<Document>) {
    && (forall d :: d in ds ==> ValidDocument(d) && DocumentStrays(d) == 0)
    && ds != [] && DocumentMarks(ds[0]) > 0
  }

  lemma OpenDocumentScan(d: Document, st: Scan)
    requires ValidDocument(d) && DocumentStrays(d) == 0 && (st == START || (st.last == '>' && st.depth >= 1))
    requires st.depth + DocumentMarks(d) >= 1
    ensures Silent(st, PrintDocument(d)) && After(st, PrintDocument(d)) == Scan('>', st.depth + DocumentMarks(d))
  {
    hide Body, Silent, FrameEnd, QuietText, QuietAll, QuietBody, StraysAll, MarksAll, Strays;
    var prolog := PrintAll(d.prolog);
    StraysBehind(START.last, '>', d.prolog);
    PrologIsValid(d.prolog);
    NodesScan(d.prolog, st);
    NoStraysQuietProlog(st.last, d.prolog, st.depth);
    var st1 := After(st, prolog);
    NodeScan(d.root, st1);
    NoStraysQuietBody(st1.last, d.root, st1.depth);
    LeavesAppend(st, prolog, MarksAll(d.prolog), true, Print(d.root), Marks(d.root), true);
    assert Print(d.root)[|Print(d.root)| - 1] == '>';
  }

  /** What stands in front of the first document or between two of them is no '/' and no '?'. */
  lemma StraysBehind(p: char, q: char, ns: seq<Node>)
    requires !Slashy(p) && !Slashy(q) && p != '<' && q != '<'
    ensures StraysAll(p, ns) == StraysAll(q, ns)
    decreases |ns|
  {
    if ns != [] {
      if Print(ns[0]) == "" {
        StraysBehind(p, q, ns[1..]);
      } else {
        assert LastOf(p, Print(ns[0])) == LastOf(q, Print(ns[0]));
      }
    }
  }

  lemma {:induction false} OpenDocumentsScan(ds: seq<Document>, st: Scan)
    requires forall d :: d in ds ==> ValidDocument(d) && DocumentStrays(d) == 0
    requires st.last == '>' && st.depth >= 1
    ensures Silent(st, PrintDocuments(ds))
    decreases |ds|
  {
    if ds != [] {
      assert ds[0] in ds && forall d :: d in ds[1..] ==> d in ds;
      OpenDocumentScan(ds[0], st);
      OpenDocumentsScan(ds[1..], After(st, PrintDocument(ds[0])));
      AfterAppend(st, PrintDocument(ds[0]), PrintDocuments(ds[1..]));
    }
  }

  /** Once a document with marks and no strays comes, it and everything behind it stays in the overflow. */
  lemma CommentedDocumentIsKeptBack(ds: seq<Document>)
    requires Unframed(ds)
    ensures Frames(PrintDocuments(ds)) == Framed([], PrintDocuments(ds))
  {
    assert ds[0] in ds && forall d :: d in ds[1..] ==> d in ds;
    OpenDocumentScan(ds[0], START);
    OpenDocumentsScan(ds[1..], After(START, PrintDocument(ds[0])));
    AfterAppend(START, PrintDocument(ds[0]), PrintDocuments(ds[1..]));
  }

  // ---------------------------------------------------------------------------------------
  // From printed documents, through any chunks, to the listeners
  // ---------------------------------------------------------------------------------------

  /** Documents sent as a stream cut anywhere arrive one by one, whole and in order,
      each without the blanks in front of it. */
  lemma StreamedDocumentsArrive(read: Reader, ds: seq<Document>, chunks: seq<string>)
    requires forall d :: d in ds ==> ValidDocument(d) && FramedWhole(d)
    requires Concat(chunks) == PrintDocuments(ds)
    requires Accepts(read, Prints(ds))
    ensures var c := FeedAll(read, FRESH, chunks);
            c.overflow == "" && c.arrived == Arrivals(read, Prints(ds))
  {
    FramingInvertsPrinting(ds);
    assert FRESH.overflow + Concat(chunks) == PrintDocuments(ds);
    ChunkIndependence(read, FRESH, chunks);
    DeliverAccepted(read, FRESH, Frames(PrintDocuments(ds)));
  }

  /** Trimming removes exactly the blanks in front of the first bracket. */
  lemma {:induction false} TrimStopsAtBracket(blanks: string, s: string)
    requires forall i :: 0 <= i < |blanks| ==> IsBlank(blanks[i])
    requires s != "" && s[0] == '<'
    ensures TrimBlank(blanks + s) == s
    decreases |blanks|
  {
    if blanks == "" {
      assert blanks + s == s;
    } else {
      SplitAppend(blanks, s, 1);
      assert (blanks + s)[0] == blanks[0];
      TrimStopsAtBracket(blanks[1..], s);
    }
  }
}
