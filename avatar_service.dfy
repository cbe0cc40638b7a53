/**
 * The signed-in player's avatar (src/app/services/avatar.service.ts): the
 * current value of the avatar stream, and the `userAvatar` entry of the
 * browser's local storage when the browser has one.
 */
module AvatarService {
  import opened JsText

  const DefaultAvatar: string := "./images/profile.PNG"

  class AvatarService {
    /** The value the avatar stream currently holds. */
    var avatarUrl: string
    /** The `userAvatar` storage entry. */
    var storedAvatar: Option<string>
    /** Whether `localStorage` exists where the app runs. */
    const hasStorage: bool

    constructor (hasStorage: bool, storedAvatar: Option<string>)
      ensures avatarUrl == DefaultAvatar && this.storedAvatar == storedAvatar && this.hasStorage == hasStorage
    {
      avatarUrl := DefaultAvatar;
      this.storedAvatar := storedAvatar;
      this.hasStorage := hasStorage;
    }

    /** updateAvatar: the stream takes the url, and so does the storage entry when storage exists. */
    method UpdateAvatar(url: string)
      modifies this`avatarUrl, this`storedAvatar
      ensures avatarUrl == url
      ensures storedAvatar == if hasStorage then Some(url) else old(storedAvatar)
    {
      avatarUrl := url;
      if hasStorage {
        storedAvatar := Some(url);
      }
    }

    /** getCurrentAvatarUrl */
    function GetCurrentAvatarUrl(): (url: string)
      reads this`avatarUrl
      ensures url == avatarUrl
    {
      avatarUrl
    }

    /** resetAvatar: back to the default picture. */
    method ResetAvatar()
      modifies this`avatarUrl, this`storedAvatar
      ensures avatarUrl == DefaultAvatar
      ensures storedAvatar == if hasStorage then Some(DefaultAvatar) else old(storedAvatar)
    {
      UpdateAvatar(DefaultAvatar);
    }

    /**
     * clearAvatar: the storage entry is removed and then, by the reset,
     * written again with the default picture.
     */
    method ClearAvatar()
      modifies this`avatarUrl, this`storedAvatar
      ensures avatarUrl == DefaultAvatar
      ensures storedAvatar == if hasStorage then Some(DefaultAvatar) else old(storedAvatar)
    {
      if hasStorage {
        storedAvatar := None;
      }
      ResetAvatar();
    }

    /** initializeUserAvatar: a non-empty url is taken, anything else resets. */
    method InitializeUserAvatar(userEmail: string, url: Option<string>)
      modifies this`avatarUrl, this`storedAvatar
      ensures avatarUrl == if Truthy(url) then url.value else DefaultAvatar
      ensures storedAvatar == if hasStorage then Some(avatarUrl) else old(storedAvatar)
    {
      if Truthy(url) {
        UpdateAvatar(url.value);
      } else {
        ResetAvatar();
      }
    }
  }
}
