/**
 * The name helpers shared by src/components/UserDisplay.ts and
 * src/ui/UserMenu.ts: the name shown for a signed-in user, its first name
 * and its initials. Both files define getFirstName and getInitials with the
 * same bodies; they are defined once here.
 */
module UserNames {

  /** The characters String.prototype.trim removes: ECMAScript WhiteSpace and LineTerminator. */
  predicate IsJsWhitespace(c: char) {
    || c == '\t' || c == '\n' || c == '\U{000B}' || c == '\U{000C}' || c == '\r' || c == ' '
    || c == '\U{00A0}' || c == '\U{1680}' || ('\U{2000}' <= c <= '\U{200A}')
    || c == '\U{2028}' || c == '\U{2029}' || c == '\U{202F}' || c == '\U{205F}'
    || c == '\U{3000}' || c == '\U{FEFF}'
  }

  /** The string without its leading whitespace. */
  function TrimStart(s: string): (r: string)
    ensures |r| <= |s|
    ensures forall k :: 0 <= k < |s| - |r| ==> IsJsWhitespace(s[k])
    ensures r != [] ==> !IsJsWhitespace(r[0])
  {
    if s != [] && IsJsWhitespace(s[0]) then TrimStart(s[1..]) else s
  }

  /** What TrimStart leaves is the end of the string: only the leading characters are dropped. */
  lemma {:induction false} TrimStartSuffix(s: string)
    ensures TrimStart(s) == s[|s| - |TrimStart(s)|..]
  {
    if s != [] && IsJsWhitespace(s[0]) {
      TrimStartSuffix(s[1..]);
      assert s[1..][|s| - 1 - |TrimStart(s)|..] == s[|s| - |TrimStart(s)|..];
    }
  }

  /** The string without its trailing whitespace. */
  function TrimEnd(s: string): (r: string)
    ensures |r| <= |s| && r == s[..|r|]
    ensures forall k :: |r| <= k < |s| ==> IsJsWhitespace(s[k])
    ensures r != [] ==> !IsJsWhitespace(r[|r| - 1])
  {
    if s != [] && IsJsWhitespace(s[|s| - 1]) then TrimEnd(s[..|s| - 1]) else s
  }

  /** String.prototype.trim. */
  function Trim(s: string): string {
    TrimEnd(TrimStart(s))
  }

  /**
   * What trim leaves neither starts nor ends with whitespace, and it leaves
   * nothing exactly when the string is all whitespace.
   */
  lemma TrimEnds(s: string)
    ensures Trim(s) != [] ==> !IsJsWhitespace(Trim(s)[0]) && !IsJsWhitespace(Trim(s)[|Trim(s)| - 1])
    ensures Trim(s) == [] <==> forall k :: 0 <= k < |s| ==> IsJsWhitespace(s[k])
  {
    TrimStartSuffix(s);
  }

  /** The text before the first separator (all of it when there is none). */
  function TakeUntil(s: string, sep: char): (r: string)
    ensures |r| <= |s| && r == s[..|r|] && sep !in r
    ensures |r| < |s| ==> s[|r|] == sep
  {
    if s == [] || s[0] == sep then [] else [s[0]] + TakeUntil(s[1..], sep)
  }

  /** String.prototype.split with a one-character separator: the pieces between separators, empty ones too. */
  function Split(s: string, sep: char): (parts: seq<string>)
    ensures |parts| >= 1
    ensures forall k :: 0 <= k < |parts| ==> sep !in parts[k]
  {
    if s == [] then [[]]
    else
      var rest := Split(s[1..], sep);
      if s[0] == sep then [[]] + rest else [[s[0]] + rest[0]] + rest[1..]
  }

  /** Array.prototype.join with a one-character separator. */
  function Join(parts: seq<string>, sep: char): string
    requires |parts| >= 1
  {
    if |parts| == 1 then parts[0] else parts[0] + [sep] + Join(parts[1..], sep)
  }

  /** Joining the pieces of a split with its separator gives the string back. */
  lemma {:induction false} SplitJoin(s: string, sep: char)
    ensures Join(Split(s, sep), sep) == s
  {
    if s != [] {
      var rest := Split(s[1..], sep);
      SplitJoin(s[1..], sep);
      if s[0] == sep {
        assert Join([[]] + rest, sep) == [] + [sep] + Join(rest, sep);
      } else if |rest| == 1 {
        assert Split(s, sep) == [[s[0]] + rest[0]];
      } else {
        var parts := Split(s, sep);
        assert parts[1..] == rest[1..];
        assert Join(rest, sep) == rest[0] + [sep] + Join(rest[1..], sep);
      }
    }
  }

  /** The first piece of a split is the text before the first separator. */
  lemma {:induction false} SplitFirst(s: string, sep: char)
    ensures Split(s, sep)[0] == TakeUntil(s, sep)
  {
    if s != [] && s[0] != sep {
      SplitFirst(s[1..], sep);
    }
  }

  /** A string without the separator splits into itself alone. */
  lemma {:induction false} SplitWithoutSeparator(s: string, sep: char)
    requires sep !in s
    ensures Split(s, sep) == [s]
  {
    if s != [] {
      assert sep !in s[1..];
      SplitWithoutSeparator(s[1..], sep);
      assert [s[0]] + s[1..] == s;
    }
  }

  /** filter(part => part.length > 0). */
  function NonEmptyParts(parts: seq<string>): (r: seq<string>)
    ensures |r| <= |parts|
    ensures forall k :: 0 <= k < |r| ==> r[k] != [] && r[k] in parts
  {
    if parts == [] then []
    else if parts[0] == [] then NonEmptyParts(parts[1..])
    else [parts[0]] + NonEmptyParts(parts[1..])
  }

  /** The parts of a name: trimmed, split on single spaces, empty pieces dropped. */
  function NameParts(name: string): (parts: seq<string>)
    ensures forall k :: 0 <= k < |parts| ==> parts[k] != [] && ' ' !in parts[k]
  {
    NonEmptyParts(Split(Trim(name), ' '))
  }

  /** A split leaves only empty pieces exactly when the string is all separators. */
  lemma {:induction false} NoNonEmptyPieces(s: string, sep: char)
    ensures NonEmptyParts(Split(s, sep)) == [] <==> forall k :: 0 <= k < |s| ==> s[k] == sep
  {
    if s != [] {
      NoNonEmptyPieces(s[1..], sep);
      var rest := Split(s[1..], sep);
      if s[0] == sep {
        assert Split(s, sep) == [[]] + rest;
        assert Split(s, sep)[1..] == rest;
        if forall k :: 0 <= k < |s[1..]| ==> s[1..][k] == sep {
          forall k | 0 <= k < |s| ensures s[k] == sep {
            if k > 0 {
              assert s[k] == s[1..][k - 1];
            }
          }
        }
      } else {
        assert Split(s, sep)[0] != [];
      }
    }
  }

  /**
   * A name has no parts exactly when it is all whitespace; runs of spaces
   * between words never make empty parts.
   */
  lemma NamePartsEmpty(name: string)
    ensures NameParts(name) == [] <==> forall k :: 0 <= k < |name| ==> IsJsWhitespace(name[k])
  {
    var t := Trim(name);
    TrimEnds(name);
    NoNonEmptyPieces(t, ' ');
    if t != [] {
      assert t[0] != ' ';
    }
  }

  /** With a non-whitespace first character, the first part is the text before the first space. */
  lemma FirstPartIsLeadingWord(t: string)
    requires t != [] && !IsJsWhitespace(t[0])
    ensures NonEmptyParts(Split(t, ' ')) != []
    ensures NonEmptyParts(Split(t, ' '))[0] == TakeUntil(t, ' ')
  {
    SplitFirst(t, ' ');
    assert TakeUntil(t, ' ') != [];
  }

  /**
   * getFirstName: 'Usuario' for a name with no parts, otherwise its first
   * part, which is the trimmed name up to its first space.
   */
  function GetFirstName(fullName: string): (first: string)
    ensures NameParts(fullName) == [] ==> first == "Usuario"
    ensures NameParts(fullName) != [] ==> first == TakeUntil(Trim(fullName), ' ')
    ensures first != [] && ' ' !in first && !IsJsWhitespace(first[0])
  {
    var nameParts := NameParts(fullName);
    if |nameParts| == 0 then
      assert "Usuario"[0] == 'U';
      "Usuario"
    else
      TrimEnds(fullName);
      FirstPartIsLeadingWord(Trim(fullName));
      nameParts[0]
  }

  /** toUpperCase of one character, for ASCII and Latin-1 letters; 'ß' becomes "SS". */
  function UpperChar(c: char): (r: string)
    ensures c != 'ß' ==> |r| == 1
    ensures c == 'ß' ==> r == "SS"
    ensures 'a' <= c <= 'z' ==> r == [(c as int - 32) as char]
    ensures 'A' <= c <= 'Z' ==> r == [c]
  {
    if 'a' <= c <= 'z' then [(c as int - 32) as char]
    else if c == 'ß' then "SS"
    else if c == 'µ' then ['\U{039C}']
    else if c == 'ÿ' then ['\U{0178}']
    else if 'à' <= c <= 'þ' && c != '÷' then [(c as int - 32) as char]
    else [c]
  }

  /** The upper-cased first character of a part. */
  function Initial(part: string): string
    requires part != []
  {
    UpperChar(part[0])
  }

  /** getInitials: '?' without parts, one initial for one part, else those of the first and last parts. */
  function GetInitials(name: string): (initials: string)
    ensures NameParts(name) == [] ==> initials == "?"
    ensures |NameParts(name)| == 1 ==> initials == Initial(NameParts(name)[0])
    ensures |NameParts(name)| >= 2 ==>
      initials == Initial(NameParts(name)[0]) + Initial(NameParts(name)[|NameParts(name)| - 1])
  {
    var nameParts := NameParts(name);
    if |nameParts| == 0 then "?"
    else if |nameParts| == 1 then Initial(nameParts[0])
    else
      var firstInitial := Initial(nameParts[0]);
      var lastInitial := Initial(nameParts[|nameParts| - 1]);
      firstInitial + lastInitial
  }

  /**
   * The first initial is the upper-cased first character of the trimmed
   * name, and a name of two or more parts gets two characters unless an
   * initial is 'ß'.
   */
  lemma InitialsShape(name: string)
    requires NameParts(name) != []
    ensures var parts := NameParts(name);
      && Trim(name) != [] && parts[0][0] == Trim(name)[0]
      && (|parts| == 1 && parts[0][0] != 'ß' ==> |GetInitials(name)| == 1)
      && (|parts| >= 2 && parts[0][0] != 'ß' && parts[|parts| - 1][0] != 'ß' ==> |GetInitials(name)| == 2)
  {
    NamePartsEmpty(name);
    TrimEnds(name);
    FirstPartIsLeadingWord(Trim(name));
  }

  /** A string that neither starts nor ends with whitespace is its own trim. */
  lemma TrimOfWord(s: string)
    requires s != [] && !IsJsWhitespace(s[0]) && !IsJsWhitespace(s[|s| - 1])
    ensures Trim(s) == s
  {
  }

  /** Splitting at a first separator gives the text before it, then the pieces of the rest. */
  lemma {:induction false} SplitAtSeparator(a: string, sep: char, b: string)
    requires sep !in a
    ensures Split(a + [sep] + b, sep) == [a] + Split(b, sep)
  {
    var s := a + [sep] + b;
    if a == [] {
      assert s[1..] == b;
    } else {
      assert s[1..] == a[1..] + [sep] + b;
      SplitAtSeparator(a[1..], sep, b);
      assert [a[0]] + a[1..] == a;
    }
  }

  /** A word: non-empty, without spaces, neither starting nor ending with whitespace. */
  predicate IsWord(w: string) {
    w != [] && ' ' !in w && !IsJsWhitespace(w[0]) && !IsJsWhitespace(w[|w| - 1])
  }

  /** A word is its only part. */
  lemma OneWordParts(a: string)
    requires IsWord(a)
    ensures NameParts(a) == [a]
  {
    TrimOfWord(a);
    SplitWithoutSeparator(a, ' ');
  }

  /** Two words joined by a space are its two parts. */
  lemma TwoWordParts(a: string, b: string)
    requires IsWord(a) && IsWord(b)
    ensures NameParts(a + " " + b) == [a, b]
  {
    var s := a + " " + b;
    assert s[0] == a[0] && s[|s| - 1] == b[|b| - 1];
    TrimOfWord(s);
    assert s == a + [' '] + b;
    SplitAtSeparator(a, ' ', b);
    SplitWithoutSeparator(b, ' ');
    assert Split(s, ' ') == [a, b];
    assert [a, b][1..] == [b] && [b][1..] == [];
    assert NonEmptyParts([b]) == [b];
  }

  /** Three words joined by spaces are its three parts. */
  lemma ThreeWordParts(a: string, b: string, c: string)
    requires IsWord(a) && IsWord(b) && IsWord(c)
    ensures NameParts(a + " " + b + " " + c) == [a, b, c]
  {
    var s := a + " " + b + " " + c;
    assert s[0] == a[0] && s[|s| - 1] == c[|c| - 1];
    TrimOfWord(s);
    assert s == a + [' '] + (b + [' '] + c);
    SplitAtSeparator(b, ' ', c);
    SplitWithoutSeparator(c, ' ');
    SplitAtSeparator(a, ' ', b + [' '] + c);
    assert Split(s, ' ') == [a, b, c];
    assert [a, b, c][1..] == [b, c] && [b, c][1..] == [c] && [c][1..] == [];
    assert NonEmptyParts([c]) == [c];
    assert NonEmptyParts([b, c]) == [b, c];
  }

  /** A name of two words is called by the first, with the initials of both. */
  lemma TwoWordNames(a: string, b: string)
    requires IsWord(a) && IsWord(b)
    ensures GetFirstName(a + " " + b) == a
    ensures GetInitials(a + " " + b) == Initial(a) + Initial(b)
  {
    TwoWordParts(a, b);
  }

  /** A name of three words is called by the first, with the initials of the first and the last. */
  lemma ThreeWordNames(a: string, b: string, c: string)
    requires IsWord(a) && IsWord(b) && IsWord(c)
    ensures GetFirstName(a + " " + b + " " + c) == a
    ensures GetInitials(a + " " + b + " " + c) == Initial(a) + Initial(c)
  {
    ThreeWordParts(a, b, c);
  }

  /** The examples of the doc comment of getFirstName and getInitials for a single name. */
  lemma OneWordExample()
    ensures GetFirstName("Juan") == "Juan" && GetInitials("Juan") == "J"
  {
    OneWordParts("Juan");
  }

  /** "Juan" and "Pérez" are words, joined by a space they make "Juan Pérez", and their initials are "JP". */
  lemma JuanPerezWords()
    ensures IsWord("Juan") && IsWord("Pérez")
    ensures "Juan" + " " + "Pérez" == "Juan Pérez"
    ensures Initial("Juan") + Initial("Pérez") == "JP"
  {
    assert UpperChar('J') == ['J'] && UpperChar('P') == ['P'];
  }

  /** The examples for a name and a surname: "Juan Pérez" gives "Juan" and "JP". */
  lemma TwoWordExample()
    ensures GetFirstName("Juan Pérez") == "Juan" && GetInitials("Juan Pérez") == "JP"
  {
    JuanPerezWords();
    TwoWordNames("Juan", "Pérez");
  }

  /** "María", "José" and "López" are words making "María José López", with first and last initials "ML". */
  lemma MariaJoseLopezWords()
    ensures IsWord("María") && IsWord("José") && IsWord("López")
    ensures "María" + " " + "José" + " " + "López" == "María José López"
    ensures Initial("María") + Initial("López") == "ML"
  {
    assert UpperChar('M') == ['M'] && UpperChar('L') == ['L'];
  }

  /** The examples for three parts: "María José López" gives "María" and "ML", skipping the middle name. */
  lemma ThreeWordExample()
    ensures GetFirstName("María José López") == "María" && GetInitials("María José López") == "ML"
  {
    MariaJoseLopezWords();
    ThreeWordNames("María", "José", "López");
  }

  /** The signed-in user, as far as the name helpers read it. */
  datatype GoogleUser = GoogleUser(email: string, name: string, picture: string)

  /** user.name || user.email.split('@')[0]: the name, or else the email before its first '@'. */
  function DisplayName(user: GoogleUser): (name: string)
    ensures user.name != [] ==> name == user.name
    ensures user.name == [] ==> '@' !in name && |name| <= |user.email| && name == user.email[..|name|]
    ensures user.name == [] && |name| < |user.email| ==> user.email[|name|] == '@'
  {
    if user.name != [] then user.name
    else
      SplitFirst(user.email, '@');
      Split(user.email, '@')[0]
  }

  /** A word without spaces that starts with a non-whitespace character has its first character, upper-cased, as initials. */
  lemma InitialsOfSpacelessWord(w: string)
    requires w != [] && ' ' !in w && !IsJsWhitespace(w[0])
    ensures GetInitials(w) == UpperChar(w[0])
  {
    assert TrimStart(w) == w;
    var t := Trim(w);
    TrimEnds(w);
    assert t[0] == w[0] && ' ' !in t;
    SplitWithoutSeparator(t, ' ');
    assert NonEmptyParts([t]) == [t];
  }

  /** The email of a user without a name that starts with '@' leaves an empty display name. */
  lemma NamelessDisplayName(user: GoogleUser)
    requires user.name == [] && user.email != [] && user.email[0] == '@'
    ensures DisplayName(user) == []
  {
  }

  /** "Usuario" has the initials "U". */
  lemma UsuarioInitial()
    ensures GetInitials("Usuario") == "U"
  {
    InitialsOfSpacelessWord("Usuario");
  }

  /**
   * A user without a name whose email starts with '@' has an empty display
   * name, so is called "Usuario", whose initials are "U".
   */
  lemma NamelessUser(user: GoogleUser)
    requires user.name == [] && user.email != [] && user.email[0] == '@'
    ensures DisplayName(user) == []
    ensures GetFirstName(DisplayName(user)) == "Usuario" && GetInitials("Usuario") == "U"
  {
    NamelessDisplayName(user);
    NamePartsEmpty([]);
    UsuarioInitial();
  }

  /**
   * The initials of a first name are a single upper-cased character: a first
   * name is one part, so its initials are those of its first character.
   */
  lemma InitialsOfFirstName(fullName: string)
    ensures GetInitials(GetFirstName(fullName)) == UpperChar(GetFirstName(fullName)[0])
  {
    InitialsOfSpacelessWord(GetFirstName(fullName));
  }
}
