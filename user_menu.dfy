/**
 * The HTML user menu of src/ui/UserMenu.ts: a dropdown that opens and
 * closes, and the name and avatar it shows for the signed-in user. The
 * dropdown's CSS classes follow the open flag, so the flag is the state.
 */
module Menus {
  import opened Wrappers
  import opened UserNames

  /**
   * btoa accepts a string only when every character fits in one byte; the
   * placeholder's SVG is ASCII apart from the initials it draws.
   */
  predicate BtoaAccepts(s: string) {
    forall i | 0 <= i < |s| :: s[i] <= '\U{00FF}'
  }

  /**
   * The placeholder of an upper-cased initial can be encoded exactly when
   * the character is Latin-1 and its upper case is too: 'µ' and 'ÿ' are
   * upper-cased out of Latin-1.
   */
  lemma UpperCharEncodable(c: char)
    ensures BtoaAccepts(UpperChar(c)) <==> c <= '\U{00FF}' && c != 'µ' && c != 'ÿ'
  {
    if c == 'ß' {
      assert UpperChar(c) == "SS";
    } else if c == 'µ' || c == 'ÿ' || c > '\U{00FF}' {
      assert UpperChar(c)[0] > '\U{00FF}';
    }
  }

  class UserMenu {
    var isMenuOpen: bool
    /** Whether the menu element is displayed at all. */
    var visible: bool
    /** The text of the name element. */
    var nameText: string
    /** The avatar: the picture's URL, or the initials its generated placeholder draws. */
    var avatarPicture: Option<string>
    var avatarInitials: Option<string>

    /**
     * A new menu is closed. The constructor does not touch the element's
     * display, so whether it is shown is whatever the page gave it.
     */
    constructor (shownByPage: bool)
      ensures !isMenuOpen && visible == shownByPage
      ensures nameText == [] && avatarPicture == None && avatarInitials == None
    {
      isMenuOpen, visible := false, shownByPage;
      nameText, avatarPicture, avatarInitials := [], None, None;
    }

    /** toggleMenu: opens a closed menu and closes an open one. */
    method ToggleMenu()
      modifies this`isMenuOpen
      ensures isMenuOpen == !old(isMenuOpen)
    {
      isMenuOpen := !isMenuOpen;
    }

    /** closeMenu: the dropdown is closed whatever it was. */
    method CloseMenu()
      modifies this`isMenuOpen
      ensures !isMenuOpen
    {
      isMenuOpen := false;
    }

    /** A click elsewhere in the document closes an open menu; a click inside leaves it as it is. */
    method DocumentClick(insideMenu: bool)
      modifies this`isMenuOpen
      ensures isMenuOpen == (old(isMenuOpen) && insideMenu)
    {
      if isMenuOpen && !insideMenu {
        CloseMenu();
      }
    }

    /**
     * show: the name element shows the first name; the avatar is the
     * picture, or a placeholder drawing the initials of the first name.
     * Building the placeholder base64-encodes it, and btoa throws on a
     * character beyond Latin-1; `shown` is false when it throws, and then
     * the exception leaves the whole menu as it was.
     */
    method Show(user: GoogleUser) returns (shown: bool)
      modifies this`visible, this`nameText, this`avatarPicture, this`avatarInitials
      ensures shown <==> user.picture != [] || BtoaAccepts(GetInitials(GetFirstName(DisplayName(user))))
      ensures shown ==> visible && nameText == GetFirstName(DisplayName(user))
      ensures shown && user.picture != [] ==> avatarPicture == Some(user.picture) && avatarInitials == None
      ensures shown && user.picture == [] ==> avatarPicture == None && avatarInitials == Some(GetInitials(nameText))
      ensures !shown ==> visible == old(visible) && nameText == old(nameText)
      ensures !shown ==> avatarPicture == old(avatarPicture) && avatarInitials == old(avatarInitials)
    {
      var firstName := GetFirstName(DisplayName(user));
      if user.picture != [] {
        avatarPicture, avatarInitials := Some(user.picture), None;
      } else {
        var initials := GetInitials(firstName);
        if !BtoaAccepts(initials) {
          return false;
        }
        avatarPicture, avatarInitials := None, Some(initials);
      }
      nameText := firstName;
      visible := true;
      shown := true;
    }

    /** hide: the menu element is no longer displayed. */
    method Hide()
      modifies this`visible
      ensures !visible
    {
      visible := false;
    }
  }

  /** Toggling twice leaves the dropdown as it was. */
  method ToggleTwice(m: UserMenu)
    modifies m
    ensures m.isMenuOpen == old(m.isMenuOpen)
  {
    m.ToggleMenu();
    m.ToggleMenu();
  }

  /**
   * Without a picture the menu's placeholder holds one upper-cased
   * character (two for 'ß'): the initials are taken from the first name
   * alone, never from the surname. A menu that the page hides stays hidden
   * exactly when that character falls outside Latin-1.
   */
  method PlaceholderInitial(user: GoogleUser) returns (m: UserMenu, shown: bool)
    requires user.picture == []
    ensures var c := GetFirstName(DisplayName(user))[0];
      shown <==> c <= '\U{00FF}' && c != 'µ' && c != 'ÿ'
    ensures !m.isMenuOpen
    ensures shown ==> m.visible && m.avatarInitials == Some(UpperChar(GetFirstName(DisplayName(user))[0]))
    ensures !shown ==> !m.visible && m.avatarInitials == None && m.nameText == []
  {
    m := new UserMenu(false);
    InitialsOfFirstName(DisplayName(user));
    UpperCharEncodable(GetFirstName(DisplayName(user))[0]);
    shown := m.Show(user);
  }

  /** A user with neither a name nor anything before the '@' of the email is shown as "Usuario", with the placeholder "U". */
  method NamelessMenu() returns (m: UserMenu)
    ensures m.nameText == "Usuario" && m.avatarInitials == Some("U")
  {
    m := new UserMenu(false);
    var user := GoogleUser("@example.com", "", "");
    NamelessUser(user);
    var shown := m.Show(user);
    assert BtoaAccepts("U");
  }
}
