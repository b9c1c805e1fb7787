/**
 * The in-canvas user badge of src/components/UserDisplay.ts: the first name
 * as a label, and the initials of the whole name on the avatar when there is
 * no profile picture or the picture fails to load.
 */
module UserDisplays {
  import opened Wrappers
  import opened UserNames

  class UserDisplay {
    /** The text of the name label. */
    var nameText: string
    /** The text drawn on the avatar; None while a profile picture stands in for it. */
    var avatarText: Option<string>

    /**
     * The label shows the first name of the display name; without a picture
     * the avatar shows the initials of the full display name.
     */
    constructor (user: GoogleUser)
      ensures nameText == GetFirstName(DisplayName(user))
      ensures user.picture == [] ==> avatarText == Some(GetInitials(DisplayName(user)))
      ensures user.picture != [] ==> avatarText == None
    {
      var fullName := DisplayName(user);
      nameText := GetFirstName(fullName);
      if user.picture != [] {
        avatarText := None;
      } else {
        avatarText := Some(GetInitials(fullName));
      }
    }

    /** The picture failed to load: the avatar falls back to the initials of the label's text. */
    method AvatarLoadFailed()
      modifies this`avatarText
      ensures avatarText == Some(GetInitials(nameText))
    {
      var initials := GetInitials(nameText);
      avatarText := Some(initials);
    }

    /** updateName: the label shows the new text. */
    method UpdateName(newName: string)
      modifies this`nameText
      ensures nameText == newName
    {
      nameText := newName;
    }
  }

  /**
   * A picture that fails to load leaves a single initial, that of the first
   * name, even for a user whose name has a surname and would have shown two.
   */
  method FallbackAfterLoadError(user: GoogleUser) returns (d: UserDisplay)
    requires user.picture != []
    ensures d.avatarText == Some(UpperChar(GetFirstName(DisplayName(user))[0]))
  {
    d := new UserDisplay(user);
    d.AvatarLoadFailed();
    InitialsOfFirstName(DisplayName(user));
  }

  /** With and without a picture: "Juan Pérez" shows "Juan", with "JP" when there is no picture and "J" after a load error. */
  method TwoBadges() returns (plain: UserDisplay, failed: UserDisplay)
    ensures plain.nameText == "Juan" && plain.avatarText == Some("JP")
    ensures failed.nameText == "Juan" && failed.avatarText == Some("J")
  {
    TwoWordExample();
    OneWordExample();
    plain := new UserDisplay(GoogleUser("juan@example.com", "Juan Pérez", ""));
    failed := new UserDisplay(GoogleUser("juan@example.com", "Juan Pérez", "https://example.com/juan.png"));
    failed.AvatarLoadFailed();
  }
}
